/**
  get_score_stats and prune_dataset of xml_parser.py: the statistics
  record of a MusicXML score and the filters over it.

  This record differs from the one in task_1/create_dataset.py: it has a
  period; its granularity is int(1 / quarterLength), an integer; it has a
  power_2_notes flag and no divisibility counts. prune_dataset has no
  percent-divisible filter, and its note-range test fires when the notes
  lie inside the range.
 */
module XmlPruning {
  import opened Wrappers
  import Music
  import opened ScoreStats
  import opened Pruning

  /** The score_stats record of xml_parser.py. */
  datatype XmlStats = XmlStats(
    composer: string, period: string, numParts: nat, hasPickup: bool, numMeasures: nat, consistentMeasures: bool,
    minNote: Option<int>, maxNote: Option<int>, granularity: Option<int>, power2Notes: bool,
    timeSignatures: set<string>, keySignatures: set<string>,
    consistentKey: bool, consistentTime: bool, consistentParts: bool)

  // ---------------------------------------------------------------------
  // Integer granularity and the power-of-two test

  /** Python's int() on a float: truncation toward zero. */
  function Trunc(x: real): int {
    if x >= 0.0 then x.Floor else -((-x).Floor)
  }

  /** note_gran = int(1.0 / quarterLength) for a nonzero duration. */
  function XmlNoteGran(ql: real): int
    requires ql != 0.0
  {
    Trunc(1.0 / ql)
  }

  /** a & b on non-negative integers, bit by bit from the lowest. */
  function BitAnd(a: nat, b: nat): nat {
    if a == 0 || b == 0 then 0
    else 2 * BitAnd(a / 2, b / 2) + (if a % 2 == 1 && b % 2 == 1 then 1 else 0)
  }

  /**
    `note_gran != 0 and (note_gran & (note_gran - 1)) == 0`. For a negative
    note_gran both operands are negative in two's complement, so their
    AND is negative and the test fails; only positive values can pass.
   */
  predicate PowerTest(n: int) {
    n > 0 && BitAnd(n, n - 1) == 0
  }

  /** 1, 2, 4, 8, ... */
  predicate IsPowerOfTwo(n: nat) {
    n == 1 || (n > 1 && n % 2 == 0 && IsPowerOfTwo(n / 2))
  }

  lemma {:induction false} BitAndSelf(k: nat)
    ensures BitAnd(k, k) == k
  {
    if k != 0 {
      BitAndSelf(k / 2);
    }
  }

  /** The bit trick recognises exactly the powers of two. */
  lemma {:induction false} PowerTestMeaning(n: int)
    ensures PowerTest(n) <==> n > 0 && IsPowerOfTwo(n)
  {
    if n > 1 {
      if n % 2 == 0 {
        assert (n - 1) / 2 == n / 2 - 1;
        assert BitAnd(n, n - 1) == 2 * BitAnd(n / 2, n / 2 - 1);
        PowerTestMeaning(n / 2);
      } else {
        assert (n - 1) / 2 == n / 2;
        BitAndSelf(n / 2);
        assert BitAnd(n, n - 1) == 2 * (n / 2);
      }
    }
  }

  /**
    int(1 / ql) is a quarter of the task_1 granularity 1 / (0.25 * ql),
    truncated; every duration longer than a quarter note has
    granularity 0, and so fails the power-of-two test.
   */
  lemma XmlNoteGranMeaning(ql: real)
    requires ql > 0.0
    ensures XmlNoteGran(ql) == (NoteGran(ql) / 4.0).Floor
    ensures ql > 1.0 <==> XmlNoteGran(ql) == 0
    ensures ql > 1.0 ==> !PowerTest(XmlNoteGran(ql))
  {
    assert NoteGran(ql) / 4.0 == 1.0 / ql;
    if ql > 1.0 {
      assert 1.0 / ql < 1.0;
    } else {
      assert 1.0 / ql >= 1.0;
    }
  }

  /** granularity: unset when every duration is zero, else the largest int(1 / ql) of a nonzero duration. */
  function XmlGranOf(evs: seq<Music.Event>): (r: Option<int>)
    ensures r.None? <==> forall k :: 0 <= k < |evs| ==> evs[k].quarterLength == 0.0
    ensures r.Some? ==>
      (exists k :: 0 <= k < |evs| && evs[k].quarterLength != 0.0 && r.value == XmlNoteGran(evs[k].quarterLength)) &&
      forall k :: 0 <= k < |evs| && evs[k].quarterLength != 0.0 ==> XmlNoteGran(evs[k].quarterLength) <= r.value
  {
    if evs == [] then None
    else
      var n := |evs| - 1;
      var front := XmlGranOf(evs[..n]);
      assert forall k :: 0 <= k < n ==> evs[..n][k] == evs[k];
      if evs[n].quarterLength != 0.0 && (front.None? || XmlNoteGran(evs[n].quarterLength) > front.value) then
        Some(XmlNoteGran(evs[n].quarterLength))
      else front
  }

  /** power_2_notes: every nonzero duration passes the power-of-two test. */
  function Power2Of(evs: seq<Music.Event>): (b: bool)
    ensures b <==> forall k :: 0 <= k < |evs| && evs[k].quarterLength != 0.0 ==> PowerTest(XmlNoteGran(evs[k].quarterLength))
  {
    if evs == [] then true
    else
      var n := |evs| - 1;
      assert forall k :: 0 <= k < n ==> evs[..n][k] == evs[k];
      Power2Of(evs[..n]) && (evs[n].quarterLength == 0.0 || PowerTest(XmlNoteGran(evs[n].quarterLength)))
  }

  /** The record get_score_stats builds for a score that is not cached yet. */
  function XmlStatsOf(score: ParsedScore, composer: string, period: string): XmlStats {
    var ps := AllPitches(score.events);
    var tss := SetOf(score.timeSignatures);
    var kss := SetOf(score.keySignatures);
    XmlStats(composer, period, score.numParts, score.hasPickup, score.numMeasures, score.consistentMeasures,
      MinOf(ps), MaxOf(ps), XmlGranOf(score.events), Power2Of(score.events),
      tss, kss, |kss| == 1, |tss| == 1, true)
  }

  /** The granularity and power-of-two flag of the events read so far and one more. */
  lemma XmlDurationsSnoc(pre: seq<Music.Event>, e: Music.Event)
    ensures XmlGranOf(pre + [e]) ==
      if e.quarterLength != 0.0 && (XmlGranOf(pre).None? || XmlNoteGran(e.quarterLength) > XmlGranOf(pre).value)
      then Some(XmlNoteGran(e.quarterLength)) else XmlGranOf(pre)
    ensures Power2Of(pre + [e]) == (Power2Of(pre) && (e.quarterLength == 0.0 || PowerTest(XmlNoteGran(e.quarterLength))))
  {
    assert (pre + [e])[..|pre|] == pre;
  }

  /** The part of the loop body that reads a nonzero duration. */
  method TallyXmlDuration(granIn: Option<int>, powIn: bool, ql: real) returns (granularity: Option<int>, power2Notes: bool)
    ensures granularity ==
      if ql != 0.0 && (granIn.None? || XmlNoteGran(ql) > granIn.value) then Some(XmlNoteGran(ql)) else granIn
    ensures power2Notes == (powIn && (ql == 0.0 || PowerTest(XmlNoteGran(ql))))
  {
    granularity, power2Notes := granIn, powIn;
    if ql != 0.0 {
      var q := 1.0 / ql;
      var noteGran := if q >= 0.0 then q.Floor else -((-q).Floor);
      if granularity.None? || noteGran > granularity.value {
        granularity := Some(noteGran);
      }
      if !(noteGran > 0 && BitAnd(noteGran, noteGran - 1) == 0) {
        power2Notes := false;
      }
    }
  }

  /**
    get_score_stats(score_name, score, composer, period): the cached
    record when the name is known, else the record folded from the
    score's general notes.
   */
  method GetXmlScoreStats(cache: map<string, XmlStats>, name: string, score: ParsedScore, composer: string, period: string)
    returns (st: XmlStats)
    ensures name in cache ==> st == cache[name]
    ensures name !in cache ==> st == XmlStatsOf(score, composer, period)
  {
    if name in cache {
      return cache[name];
    }
    var evs := score.events;
    var minNote: Option<int>, maxNote: Option<int>, granularity: Option<int> := None, None, None;
    var power2Notes := true;
    ghost var pre: seq<Music.Event> := [];
    var k := 0;
    while k < |evs|
      invariant 0 <= k <= |evs| && pre == evs[..k]
      invariant minNote == MinOf(AllPitches(pre)) && maxNote == MaxOf(AllPitches(pre))
      invariant granularity == XmlGranOf(pre) && power2Notes == Power2Of(pre)
    {
      var e := evs[k];
      minNote, maxNote := FoldEventPitches(minNote, maxNote, pre, e);
      XmlDurationsSnoc(pre, e);
      granularity, power2Notes := TallyXmlDuration(granularity, power2Notes, e.quarterLength);
      TakeSnoc(evs, k);
      pre := pre + [e];
      k := k + 1;
    }
    assert evs[..k] == evs;
    var tss := SetOf(score.timeSignatures);
    var kss := SetOf(score.keySignatures);
    st := XmlStats(composer, period, score.numParts, score.hasPickup, score.numMeasures, score.consistentMeasures,
      minNote, maxNote, granularity, power2Notes, tss, kss, |kss| == 1, |tss| == 1, true);
  }

  /**
    power_2_notes holds exactly when every nonzero duration has a
    positive power-of-two int(1 / ql), so exactly when every nonzero
    duration is a quarter note or shorter; the time and key flags say
    there is one signature; consistent_parts is always set.
   */
  lemma XmlStatsMeaning(score: ParsedScore, composer: string, period: string)
    ensures var st := XmlStatsOf(score, composer, period);
      (st.power2Notes <==> forall k :: 0 <= k < |score.events| && score.events[k].quarterLength != 0.0 ==>
        XmlNoteGran(score.events[k].quarterLength) > 0 && IsPowerOfTwo(XmlNoteGran(score.events[k].quarterLength))) &&
      (st.consistentTime <==> |st.timeSignatures| == 1) &&
      (st.consistentKey <==> |st.keySignatures| == 1) &&
      st.consistentParts
  {
    var evs := score.events;
    forall k | 0 <= k < |evs| && evs[k].quarterLength != 0.0
      ensures PowerTest(XmlNoteGran(evs[k].quarterLength)) <==>
        XmlNoteGran(evs[k].quarterLength) > 0 && IsPowerOfTwo(XmlNoteGran(evs[k].quarterLength))
    {
      PowerTestMeaning(XmlNoteGran(evs[k].quarterLength));
    }
  }

  /** A score holding a half note fails the power-of-two test: int(1 / 2.0) is 0. */
  lemma HalfNoteFailsPowerTest()
    ensures var score := ParsedScore(2, false, 1, true, [Music.Event(Music.Note(60), 1, 0.0, 2.0)], [], []);
      var st := XmlStatsOf(score, "", "");
      st.granularity == Some(0) && !st.power2Notes
  {
    var e := Music.Event(Music.Note(60), 1, 0.0, 2.0);
    XmlNoteGranMeaning(2.0);
    assert XmlGranOf([e]) == Some(XmlNoteGran(2.0));
  }

  // ---------------------------------------------------------------------
  // prune_dataset

  /** The keys pruning_stats starts with in xml_parser.py: no percent-divisible, consistent-parts or steps entry. */
  const XmlKeys: seq<Filter> :=
    [NumMeasures, TimeSignature, KeySignature, NoteRange, NumParts, Granularity, HasPickup,
     ParseError, ConsistentKey, ConsistentTime, ConsistentMeasures]

  /** The keyword parameters of prune_dataset in xml_parser.py. */
  datatype XmlConfig = XmlConfig(
    timeSignatures: set<string>, pickups: bool, parts: set<int>, noteRange: seq<int>,
    numMeasures: nat, keySignatures: set<string>, granularity: nat,
    consistentMeasures: bool, consistentTime: bool, consistentKey: bool, consistentParts: bool)

  /** The parameter asserts at the head of prune_dataset. */
  predicate XmlValidConfig(cfg: XmlConfig) {
    (|cfg.noteRange| == 0 || (|cfg.noteRange| == 2 && cfg.noteRange[0] <= cfg.noteRange[1])) &&
    forall p :: p in cfg.parts ==> p >= 1
  }

  /** The enabled tests never compare an unset statistic, which raises a TypeError. */
  predicate XmlComparable(cfg: XmlConfig, st: XmlStats) {
    (|cfg.noteRange| != 0 ==> st.minNote.Some? && st.maxNote.Some?) &&
    (cfg.granularity != 0 ==> st.granularity.Some?)
  }

  /** Whether the test for filter f in xml_parser.py's prune_dataset discards a score with record st. */
  predicate XmlFires(cfg: XmlConfig, st: XmlStats, f: Filter)
    requires XmlValidConfig(cfg) && XmlComparable(cfg, st)
  {
    match f
    case NumParts => cfg.parts != {} && st.numParts as int !in cfg.parts
    case TimeSignature => cfg.timeSignatures != {} && !(st.timeSignatures <= cfg.timeSignatures)
    case KeySignature => cfg.keySignatures != {} && !(st.keySignatures <= cfg.keySignatures)
    case HasPickup => cfg.pickups && st.hasPickup
    case NumMeasures => cfg.numMeasures != 0 && st.numMeasures < cfg.numMeasures
    case NoteRange => |cfg.noteRange| != 0 && st.minNote.value >= cfg.noteRange[0] && st.maxNote.value <= cfg.noteRange[1]
    case ConsistentMeasures => cfg.consistentMeasures && !st.consistentMeasures
    case Granularity => cfg.granularity != 0 && st.granularity.value > cfg.granularity
    case ConsistentTime => cfg.consistentTime && !st.consistentTime
    case ConsistentKey => cfg.consistentKey && !st.consistentKey
    case ConsistentParts => cfg.consistentParts && !st.consistentParts
    case PercentDivisible => false
    case NumSteps => false
    case ParseError => false
  }

  /** The filters that fire for a record. */
  function XmlReasons(cfg: XmlConfig, st: XmlStats): set<Filter>
    requires XmlValidConfig(cfg) && XmlComparable(cfg, st)
  {
    set f | f in AllFilters && XmlFires(cfg, st, f)
  }

  /** Every name has a record (the assert on score_to_stats), which can be tested without a TypeError. */
  predicate XmlTestable(names: seq<string>, statsOf: map<string, XmlStats>, cfg: XmlConfig) {
    XmlValidConfig(cfg) && forall n :: n in names ==> n in statsOf && XmlComparable(cfg, statsOf[n])
  }

  /** The firing filters of every name. */
  function XmlReasonsMap(names: seq<string>, statsOf: map<string, XmlStats>, cfg: XmlConfig): (rm: map<string, set<Filter>>)
    requires XmlTestable(names, statsOf, cfg)
    ensures Judged(names, rm)
    ensures forall n :: n in names ==> rm[n] == XmlReasons(cfg, statsOf[n])
  {
    map n | n in names :: XmlReasons(cfg, statsOf[n])
  }

  /**
    prune_dataset(score_names, ...) of xml_parser.py: each name's record
    is tested by every enabled filter; the name is recorded under each
    filter that fired and kept when none did.
   */
  method PruneXml(names: seq<string>, statsOf: map<string, XmlStats>, cfg: XmlConfig, ps: PruningStats)
    returns (pruned: seq<string>)
    requires XmlTestable(names, statsOf, cfg)
    requires forall n :: n in names ==> XmlReasons(cfg, statsOf[n]) <= ps.discarded.Keys
    modifies ps
    ensures pruned == Kept(names, XmlReasonsMap(names, statsOf, cfg))
    ensures ps.discarded == DiscardAll(old(ps.discarded), names, XmlReasonsMap(names, statsOf, cfg))
  {
    ghost var rm := XmlReasonsMap(names, statsOf, cfg);
    pruned := [];
    var k := 0;
    while k < |names|
      invariant 0 <= k <= |names|
      invariant pruned == Kept(names[..k], rm)
      invariant ps.discarded == DiscardAll(old(ps.discarded), names[..k], rm)
      invariant ps.discarded.Keys == old(ps.discarded).Keys
    {
      var name := names[k];
      assert names[..k + 1][..k] == names[..k];
      var reasons := XmlReasons(cfg, statsOf[name]);
      ps.Discard(name, reasons);
      if reasons == {} {
        pruned := pruned + [name];
      }
      k := k + 1;
    }
    assert names[..k] == names;
  }

  /**
    The consistent_parts test never fires on a record get_score_stats
    built, and the percent-divisible test does not exist, so every filter
    that fires has its set in pruning_stats.
   */
  lemma XmlKeysSuffice(cfg: XmlConfig, score: ParsedScore, composer: string, period: string)
    requires XmlValidConfig(cfg) && XmlComparable(cfg, XmlStatsOf(score, composer, period))
    ensures XmlReasons(cfg, XmlStatsOf(score, composer, period)) <= set f | f in XmlKeys
  {
    var st := XmlStatsOf(score, composer, period);
    assert st.consistentParts;
    RecordKeysSuffice(cfg, st);
  }

  /** A record whose parts are consistent fires only filters that have a set in pruning_stats. */
  lemma RecordKeysSuffice(cfg: XmlConfig, st: XmlStats)
    requires XmlValidConfig(cfg) && XmlComparable(cfg, st) && st.consistentParts
    ensures XmlReasons(cfg, st) <= set f | f in XmlKeys
  {
    forall f | f in XmlReasons(cfg, st)
      ensures f in XmlKeys
    {
      assert XmlFires(cfg, st, f);
    }
  }

  /** A name is kept exactly when it has a record and no enabled test fires on it. */
  lemma PruneXmlMeaning(names: seq<string>, statsOf: map<string, XmlStats>, cfg: XmlConfig, n: string)
    requires XmlTestable(names, statsOf, cfg)
    ensures n in Kept(names, XmlReasonsMap(names, statsOf, cfg)) <==>
      n in names && forall f :: f in AllFilters ==> !XmlFires(cfg, statsOf[n], f)
  {
    var rm := XmlReasonsMap(names, statsOf, cfg);
    KeptMeaning(names, rm, n);
    if n in names {
      var st := statsOf[n];
      assert rm[n] == XmlReasons(cfg, st);
      if rm[n] == {} {
        forall f | f in AllFilters
          ensures !XmlFires(cfg, st, f)
        {
          assert f !in XmlReasons(cfg, st);
        }
      } else {
        var f :| f in rm[n];
        assert f in AllFilters && XmlFires(cfg, st, f);
      }
    }
  }

  // ---------------------------------------------------------------------
  // The note-range test

  /** The note-range test as task_1/create_dataset.py writes it: some note lies outside the range. */
  predicate IntendedRangeFires(cfg: XmlConfig, st: XmlStats)
    requires XmlValidConfig(cfg) && XmlComparable(cfg, st)
  {
    |cfg.noteRange| != 0 && (st.minNote.value < cfg.noteRange[0] || st.maxNote.value > cfg.noteRange[1])
  }

  /**
    For a record built from a score, the intended test fires exactly when
    some pitch of the score lies outside the range.
   */
  lemma IntendedRangeMeaning(cfg: XmlConfig, score: ParsedScore, composer: string, period: string)
    requires XmlValidConfig(cfg) && |cfg.noteRange| != 0
    requires XmlComparable(cfg, XmlStatsOf(score, composer, period))
    ensures var ps := AllPitches(score.events);
      IntendedRangeFires(cfg, XmlStatsOf(score, composer, period)) <==>
        exists i :: 0 <= i < |ps| && (ps[i] < cfg.noteRange[0] || ps[i] > cfg.noteRange[1])
  {
    var ps := AllPitches(score.events);
    var st := XmlStatsOf(score, composer, period);
    var lo, hi := cfg.noteRange[0], cfg.noteRange[1];
    assert st.minNote == MinOf(ps) && st.maxNote == MaxOf(ps);
    assert ps != [];
    RangeOutside(ps, lo, hi);
    assert IntendedRangeFires(cfg, st) <==> MinOf(ps).value < lo || MaxOf(ps).value > hi;
  }

  /** The lowest pitch is below lo or the highest above hi exactly when some pitch is outside [lo, hi]. */
  lemma RangeOutside(ps: seq<int>, lo: int, hi: int)
    requires ps != []
    ensures MinOf(ps).value < lo || MaxOf(ps).value > hi <==> exists i :: 0 <= i < |ps| && (ps[i] < lo || ps[i] > hi)
  {
    var mn, mx := MinOf(ps).value, MaxOf(ps).value;
    if mn < lo {
      var i :| 0 <= i < |ps| && ps[i] == mn;
    } else if mx > hi {
      var i :| 0 <= i < |ps| && ps[i] == mx;
    }
  }

  /** With a range set, the note-range test as written fires exactly when the intended one does not. */
  lemma RangeTestInverted(cfg: XmlConfig, st: XmlStats)
    requires XmlValidConfig(cfg) && XmlComparable(cfg, st) && |cfg.noteRange| != 0
    ensures XmlFires(cfg, st, NoteRange) <==> !IntendedRangeFires(cfg, st)
  {
  }

  /**
    A score whose notes all lie on the piano keyboard is discarded by the
    note range [21, 108] and recorded under 'discarded_note_range'.
   */
  lemma InRangeScoreDiscarded()
    ensures var cfg := XmlConfig({}, false, {}, [21, 108], 0, {}, 0, false, false, false, false);
      var score := ParsedScore(2, false, 1, true, [Music.Event(Music.Chord([60, 72]), 1, 0.0, 1.0)], [], []);
      var st := XmlStatsOf(score, "", "");
      XmlComparable(cfg, st) && NoteRange in XmlReasons(cfg, st) && !IntendedRangeFires(cfg, st)
  {
    var cfg := XmlConfig({}, false, {}, [21, 108], 0, {}, 0, false, false, false, false);
    var e := Music.Event(Music.Chord([60, 72]), 1, 0.0, 1.0);
    var score := ParsedScore(2, false, 1, true, [e], [], []);
    assert AllPitches([e]) == AllPitches([]) + [60, 72];
    assert MinOf([60, 72]) == Some(60) && MaxOf([60, 72]) == Some(72);
    var st := XmlStatsOf(score, "", "");
    assert st.minNote == Some(60) && st.maxNote == Some(72);
    assert XmlFires(cfg, st, NoteRange) && NoteRange in AllFilters;
    RangeTestInverted(cfg, st);
  }
}
