/**
  prune_dataset of task_1/create_dataset.py: the filters over a score's
  statistics record, and the pruning_stats table that records, for every
  filter, the names of the scores it discarded.

  A disabled filter is one whose parameter is falsy in Python: an empty
  set, an empty note range, zero, False. The tests run in a fixed order,
  one `if` per filter; since they only add to sets, the model gathers the
  filters that fire into a set and records the name under each of them.
 */
module Pruning {
  import opened Wrappers
  import opened ScoreStats

  /** The keys of pruning_stats, 'discarded_num_measures' .. 'discarded_num_steps'. */
  datatype Filter =
    | NumMeasures | TimeSignature | KeySignature | NoteRange | NumParts | Granularity | HasPickup
    | ParseError | ConsistentKey | ConsistentTime | ConsistentMeasures | PercentDivisible
    | ConsistentParts | NumSteps

  /** Every filter, in the order prune_dataset and valid_score test them. */
  const AllFilters: seq<Filter> :=
    [NumParts, TimeSignature, KeySignature, HasPickup, NumMeasures, NoteRange, ConsistentMeasures,
     Granularity, PercentDivisible, ConsistentTime, ConsistentKey, ConsistentParts, NumSteps, ParseError]

  /**
    The keys pruning_stats starts with in task_1/create_dataset.py and
    task_6/create_dataset.py; there is no 'discarded_consistent_parts'.
   */
  const CreateKeys: seq<Filter> :=
    [NumMeasures, TimeSignature, KeySignature, NoteRange, NumParts, Granularity, HasPickup,
     ParseError, ConsistentKey, ConsistentTime, ConsistentMeasures, PercentDivisible]

  /** The keyword parameters of prune_dataset (has_key_signature is never read). */
  datatype Config = Config(
    timeSignatures: set<string>, pickups: bool, parts: set<int>, noteRange: seq<int>,
    numMeasures: nat, keySignatures: set<string>, granularity: nat,
    consistentMeasures: bool, consistentTime: bool, consistentKey: bool, consistentParts: bool,
    percentIndivisible: bool)

  /** The parameter checks at the head of prune_dataset. */
  predicate ValidConfig(cfg: Config) {
    (|cfg.noteRange| == 0 || (|cfg.noteRange| == 2 && cfg.noteRange[0] <= cfg.noteRange[1])) &&
    forall p :: p in cfg.parts ==> p >= 1
  }

  /** No filter is enabled. */
  predicate NoFilters(cfg: Config) {
    cfg.timeSignatures == {} && !cfg.pickups && cfg.parts == {} && cfg.noteRange == [] &&
    cfg.numMeasures == 0 && cfg.keySignatures == {} && cfg.granularity == 0 &&
    !cfg.consistentMeasures && !cfg.consistentTime && !cfg.consistentKey && !cfg.consistentParts &&
    !cfg.percentIndivisible
  }

  /** The note-range test runs only with two bounds that are both nonzero. */
  predicate RangeChecked(cfg: Config) {
    |cfg.noteRange| == 2 && cfg.noteRange[0] != 0 && cfg.noteRange[1] != 0
  }

  /**
    The enabled tests never compare an unset statistic: Python raises a
    TypeError on `None < int`, so a score without notes must not meet an
    enabled note-range test, nor a score without durations an enabled
    granularity test.
   */
  predicate Comparable(cfg: Config, st: Stats) {
    (RangeChecked(cfg) ==> st.minNote.Some? && st.maxNote.Some?) &&
    (cfg.granularity != 0 ==> st.granularity.Some?)
  }

  /** Whether prune_dataset's test for filter f discards a score with record st. */
  predicate Fires(cfg: Config, st: Stats, f: Filter)
    requires Comparable(cfg, st)
  {
    match f
    case NumParts => cfg.parts != {} && st.numParts as int !in cfg.parts
    case TimeSignature => cfg.timeSignatures != {} && !(st.timeSignatures <= cfg.timeSignatures)
    case KeySignature => cfg.keySignatures != {} && !(st.keySignatures <= cfg.keySignatures)
    case HasPickup => cfg.pickups && st.hasPickup
    case NumMeasures => cfg.numMeasures != 0 && st.numMeasures < cfg.numMeasures
    case NoteRange => RangeChecked(cfg) && (st.minNote.value < cfg.noteRange[0] || st.maxNote.value > cfg.noteRange[1])
    case ConsistentMeasures => cfg.consistentMeasures && !st.consistentMeasures
    case Granularity => cfg.granularity != 0 && st.granularity.value > cfg.granularity as real
    case PercentDivisible => cfg.percentIndivisible && !st.onePercentDivisible
    case ConsistentTime => cfg.consistentTime && !st.consistentTime
    case ConsistentKey => cfg.consistentKey && !st.consistentKey
    case ConsistentParts => cfg.consistentParts && !st.consistentParts
    case NumSteps => false
    case ParseError => false
  }

  /** The filters that fire for a record. */
  function Reasons(cfg: Config, st: Stats): set<Filter>
    requires Comparable(cfg, st)
  {
    set f | f in AllFilters && Fires(cfg, st, f)
  }

  /** The table after `name` is added to the set of each filter in fs. */
  function AddTo(table: map<Filter, set<string>>, fs: set<Filter>, name: string): map<Filter, set<string>> {
    map f | f in table :: if f in fs then table[f] + {name} else table[f]
  }

  /** The global pruning_stats dictionary. */
  class PruningStats {
    var discarded: map<Filter, set<string>>

    /** A table whose keys are `keys`, each with no name yet. */
    constructor (keys: seq<Filter>)
      ensures discarded == map f | f in keys :: {}
    {
      discarded := map f | f in keys :: {};
    }

    /** `pruning_stats[key].add(name)` for every filter that fired; a missing key is a KeyError. */
    method Discard(name: string, reasons: set<Filter>)
      requires reasons <= discarded.Keys
      modifies this
      ensures discarded == AddTo(old(discarded), reasons, name)
    {
      discarded := AddTo(discarded, reasons, name);
    }
  }

  /** Every name has a record, and the record can be tested without a TypeError. */
  predicate Testable(names: seq<string>, statsOf: map<string, Stats>, cfg: Config) {
    forall n :: n in names ==> n in statsOf && Comparable(cfg, statsOf[n])
  }

  /** Every name has its set of firing filters. */
  predicate Judged(names: seq<string>, reasonsOf: map<string, set<Filter>>) {
    forall n :: n in names ==> n in reasonsOf
  }

  /** The firing filters of every name, under prune_dataset's tests. */
  function ReasonsMap(names: seq<string>, statsOf: map<string, Stats>, cfg: Config): (rm: map<string, set<Filter>>)
    requires Testable(names, statsOf, cfg)
    ensures Judged(names, rm)
    ensures forall n :: n in names ==> rm[n] == Reasons(cfg, statsOf[n])
  {
    map n | n in names :: Reasons(cfg, statsOf[n])
  }

  /** The names no filter discards, in input order. */
  function Kept(names: seq<string>, reasonsOf: map<string, set<Filter>>): seq<string>
    requires Judged(names, reasonsOf)
  {
    if names == [] then []
    else
      var n := names[|names| - 1];
      Kept(names[..|names| - 1], reasonsOf) + (if reasonsOf[n] == {} then [n] else [])
  }

  /** The table after every name has been added under the filters that discard it. */
  function DiscardAll(table: map<Filter, set<string>>, names: seq<string>, reasonsOf: map<string, set<Filter>>)
    : map<Filter, set<string>>
    requires Judged(names, reasonsOf)
  {
    if names == [] then table
    else
      var n := names[|names| - 1];
      AddTo(DiscardAll(table, names[..|names| - 1], reasonsOf), reasonsOf[n], n)
  }

  /**
    prune_dataset(score_names, ...): each name's record is tested by every
    enabled filter; the name is recorded under each filter that fired and
    kept when none did.
   */
  method PruneDataset(names: seq<string>, statsOf: map<string, Stats>, cfg: Config, ps: PruningStats)
    returns (pruned: seq<string>)
    requires ValidConfig(cfg) && Testable(names, statsOf, cfg)
    requires forall n :: n in names ==> Reasons(cfg, statsOf[n]) <= ps.discarded.Keys
    modifies ps
    ensures pruned == Kept(names, ReasonsMap(names, statsOf, cfg))
    ensures ps.discarded == DiscardAll(old(ps.discarded), names, ReasonsMap(names, statsOf, cfg))
  {
    ghost var rm := ReasonsMap(names, statsOf, cfg);
    pruned := [];
    var k := 0;
    while k < |names|
      invariant 0 <= k <= |names|
      invariant pruned == Kept(names[..k], rm)
      invariant ps.discarded == DiscardAll(old(ps.discarded), names[..k], rm)
      invariant ps.discarded.Keys == old(ps.discarded).Keys
    {
      var name := names[k];
      assert names[..k + 1][..k] == names[..k];
      var reasons := Reasons(cfg, statsOf[name]);
      ps.Discard(name, reasons);
      if reasons == {} {
        pruned := pruned + [name];
      }
      k := k + 1;
    }
    assert names[..k] == names;
  }

  /** A name is kept exactly when it is an input that no filter discards. */
  lemma {:induction false} KeptMeaning(names: seq<string>, reasonsOf: map<string, set<Filter>>, n: string)
    requires Judged(names, reasonsOf)
    ensures n in Kept(names, reasonsOf) <==> n in names && reasonsOf[n] == {}
  {
    if names != [] {
      var front := names[..|names| - 1];
      assert names == front + [names[|names| - 1]];
      KeptMeaning(front, reasonsOf, n);
    }
  }

  /** Pruning a concatenation prunes each part: the output keeps the input order. */
  lemma {:induction false} KeptAppend(a: seq<string>, b: seq<string>, reasonsOf: map<string, set<Filter>>)
    requires Judged(a + b, reasonsOf)
    ensures Judged(a, reasonsOf) && Judged(b, reasonsOf)
    ensures Kept(a + b, reasonsOf) == Kept(a, reasonsOf) + Kept(b, reasonsOf)
  {
    assert forall n :: n in a ==> n in a + b;
    assert forall n :: n in b ==> n in a + b;
    if b == [] {
      assert a + b == a;
    } else {
      var front := b[..|b| - 1];
      var x := b[|b| - 1];
      assert forall n :: n in front ==> n in b;
      assert (a + b)[..|a + b| - 1] == a + front;
      assert (a + b)[|a + b| - 1] == x;
      KeptAppend(a, front, reasonsOf);
      var tail := if reasonsOf[x] == {} then [x] else [];
      calc {
        Kept(a + b, reasonsOf);
        Kept(a + front, reasonsOf) + tail;
        Kept(a, reasonsOf) + Kept(front, reasonsOf) + tail;
        Kept(a, reasonsOf) + (Kept(front, reasonsOf) + tail);
      }
    }
  }

  /** When no filter fires on any name, the output is the input. */
  lemma {:induction false} AllClearKeepAll(names: seq<string>, reasonsOf: map<string, set<Filter>>)
    requires Judged(names, reasonsOf) && forall n :: n in names ==> reasonsOf[n] == {}
    ensures Kept(names, reasonsOf) == names
  {
    if names != [] {
      var front, last := names[..|names| - 1], names[|names| - 1];
      assert names == front + [last];
      AllClearKeepAll(front, reasonsOf);
    }
  }

  /** With every filter disabled no test fires. */
  lemma NoFiltersNoReasons(cfg: Config, st: Stats)
    requires NoFilters(cfg)
    ensures Comparable(cfg, st) && Reasons(cfg, st) == {}
  {
    forall f | f in AllFilters
      ensures !Fires(cfg, st, f)
    {
    }
  }

  /** With every filter disabled prune_dataset returns its input. */
  lemma NoFiltersKeepAll(names: seq<string>, statsOf: map<string, Stats>, cfg: Config)
    requires NoFilters(cfg) && Testable(names, statsOf, cfg)
    ensures Kept(names, ReasonsMap(names, statsOf, cfg)) == names
  {
    forall n | n in names
      ensures ReasonsMap(names, statsOf, cfg)[n] == {}
    {
      NoFiltersNoReasons(cfg, statsOf[n]);
    }
    AllClearKeepAll(names, ReasonsMap(names, statsOf, cfg));
  }

  /**
    The table keeps its keys, and a name sits under a filter afterwards
    exactly when it was there before or it is an input that filter
    discards.
   */
  lemma {:induction false} DiscardAllMeaning(table: map<Filter, set<string>>, names: seq<string>,
                                             reasonsOf: map<string, set<Filter>>, f: Filter, n: string)
    requires Judged(names, reasonsOf)
    ensures DiscardAll(table, names, reasonsOf).Keys == table.Keys
    ensures f in table ==>
      (n in DiscardAll(table, names, reasonsOf)[f] <==> n in table[f] || (n in names && f in reasonsOf[n]))
  {
    if names != [] {
      var front := names[..|names| - 1];
      assert names == front + [names[|names| - 1]];
      assert forall m :: m in front ==> m in names;
      DiscardAllMeaning(table, front, reasonsOf, f, n);
    }
  }

  /**
    The consistent_parts test never fires on a record get_score_stats
    built, so the missing 'discarded_consistent_parts' key is never looked
    up: every filter that fires has its set.
   */
  lemma CreateKeysSuffice(cfg: Config, score: ParsedScore, composer: string, g: nat)
    requires StatsOf(score, composer, g).Ok? && Comparable(cfg, StatsOf(score, composer, g).value)
    ensures ConsistentParts !in Reasons(cfg, StatsOf(score, composer, g).value)
    ensures Reasons(cfg, StatsOf(score, composer, g).value) <= set f | f in CreateKeys
  {
    var st := StatsOf(score, composer, g).value;
    forall f | f in Reasons(cfg, st)
      ensures f in CreateKeys
    {
      assert f != ConsistentParts && f != NumSteps && f != ParseError;
    }
  }
}
