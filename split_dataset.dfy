/**
  task_1/split_dataset.py: valid_score, which tests one score's statistics
  record against the selection criteria and records the criteria that
  reject it, and the loop that deals the selected cut names into train,
  valid and test so that all cuts of one original score share a split.

  The random draw `random.randint(0, 9)` made for a new original score is
  an input: draws[k] is the number drawn if names[k] needs one.
 */
module SplitDataset {
  import opened Wrappers
  import opened Music
  import opened ScoreStats
  import opened Pruning

  /** The keys pruning_stats starts with in split_dataset.py: those of create_dataset.py and 'discarded_num_steps'. */
  const SplitKeys: seq<Filter> := CreateKeys + [NumSteps]

  /** valid_score's keyword parameters: those of prune_dataset and num_steps. */
  datatype Criteria = Criteria(cfg: Config, numSteps: nat)

  /** The criteria the split loop passes: 1 to 4 parts, pitches A0 .. C8, the divisibility test, 192 steps. */
  function SplitCriteria(): (c: Criteria)
    ensures c.cfg.parts == {1, 2, 3, 4} && c.cfg.noteRange == [MinPitch, MaxPitch]
    ensures c.cfg.percentIndivisible && c.numSteps == 48 * 4
  {
    Criteria(Config({}, false, {1, 2, 3, 4}, [MinPitch, MaxPitch], 0, {}, 0, false, false, false, false, true), 48 * 4)
  }

  /** A cut that does not span `numSteps` steps, given the time signature the ratio string ts names. */
  predicate StepsMismatch(numSteps: nat, numMeasures: nat, ts: TimeSig, g: nat) {
    numSteps as real != numMeasures as real * MeasureSteps(ts, g)
  }

  /**
    Whether valid_score's test for criterion f rejects a record. The tests
    are prune_dataset's except two: '1%+_divisible' rejects a score when it
    HOLDS, and num_steps rejects a score without exactly one time signature
    or whose measures do not add up to num_steps steps. sigOf stands for
    music21's TimeSignature(ratio).
   */
  predicate SplitFires(crit: Criteria, st: Stats, sigOf: string -> TimeSig, g: nat, f: Filter)
    requires Comparable(crit.cfg, st)
  {
    if f == PercentDivisible then crit.cfg.percentIndivisible && st.onePercentDivisible
    else if f == NumSteps then
      crit.numSteps != 0 &&
      (|st.timeSignatures| != 1 ||
       exists r :: r in st.timeSignatures && StepsMismatch(crit.numSteps, st.numMeasures, sigOf(r), g))
    else Fires(crit.cfg, st, f)
  }

  /** The criteria that reject a record. */
  function SplitReasons(crit: Criteria, st: Stats, sigOf: string -> TimeSig, g: nat): set<Filter>
    requires Comparable(crit.cfg, st)
  {
    set f | f in AllFilters && SplitFires(crit, st, sigOf, g, f)
  }

  /**
    valid_score(score_name, ...): records the name under every criterion
    that rejects it and returns whether one did, that is, whether the
    score is DISCARDED, whatever the function's name says.
   */
  method ValidScore(name: string, statsOf: map<string, Stats>, crit: Criteria, sigOf: string -> TimeSig, g: nat,
                    ps: PruningStats)
    returns (discarded: bool)
    requires name in statsOf && Comparable(crit.cfg, statsOf[name])
    requires SplitReasons(crit, statsOf[name], sigOf, g) <= ps.discarded.Keys
    modifies ps
    ensures discarded <==> SplitReasons(crit, statsOf[name], sigOf, g) != {}
    ensures ps.discarded == AddTo(old(ps.discarded), SplitReasons(crit, statsOf[name], sigOf, g), name)
  {
    var reasons := SplitReasons(crit, statsOf[name], sigOf, g);
    ps.Discard(name, reasons);
    discarded := reasons != {};
  }

  /** The num_steps criterion rejects exactly a score without one time signature or with the wrong number of steps. */
  lemma NumStepsMeaning(crit: Criteria, st: Stats, sigOf: string -> TimeSig, g: nat, r: string)
    requires Comparable(crit.cfg, st) && crit.numSteps != 0 && st.timeSignatures == {r}
    ensures NumSteps in SplitReasons(crit, st, sigOf, g) <==> StepsMismatch(crit.numSteps, st.numMeasures, sigOf(r), g)
  {
    assert NumSteps in AllFilters;
  }

  /** The split sets: train, valid and test cut names, and the original scores dealt to each. */
  datatype Splits = Splits(
    train: set<string>, trainScores: set<string>,
    valid: set<string>, validScores: set<string>,
    test: set<string>, testScores: set<string>)

  predicate Dashed(name: string) {
    '-' in name
  }

  /** The index of the first '-' in a name. */
  function FirstDash(name: string): (i: nat)
    requires Dashed(name)
    ensures i < |name| && name[i] == '-' && '-' !in name[..i]
  {
    if name[0] == '-' then 0
    else
      assert '-' in name[1..] by {
        var j :| 0 <= j < |name| && name[j] == '-';
        assert name[1..][j - 1] == '-';
      }
      var i := 1 + FirstDash(name[1..]);
      assert name[..i] == [name[0]] + name[1..][..i - 1];
      i
  }

  /** score_name[:score_name.index('-')]: the original score a cut comes from. */
  function OriginalName(name: string): string
    requires Dashed(name)
  {
    name[..FirstDash(name)]
  }

  /** A name the as-written loop places: valid_score returned True (it was discarded) and it has a '-'. */
  predicate Placed(name: string, statsOf: map<string, Stats>, crit: Criteria, sigOf: string -> TimeSig, g: nat)
    requires name in statsOf && Comparable(crit.cfg, statsOf[name])
  {
    SplitReasons(crit, statsOf[name], sigOf, g) != {} && Dashed(name)
  }

  /** One turn of the loop for a placed name: its original's split, or a new one from the draw. */
  function Deal(sp: Splits, name: string, draw: int): Splits
    requires Dashed(name)
  {
    var og := OriginalName(name);
    if og in sp.trainScores then sp.(train := sp.train + {name})
    else if og in sp.validScores then sp.(valid := sp.valid + {name})
    else if og in sp.testScores then sp.(test := sp.test + {name})
    else if draw < 7 then sp.(trainScores := sp.trainScores + {og}, train := sp.train + {name})
    else if draw == 7 then sp.(validScores := sp.validScores + {og}, valid := sp.valid + {name})
    else sp.(testScores := sp.testScores + {og}, test := sp.test + {name})
  }

  /** Every name has a record that can be tested. */
  predicate Known(names: seq<string>, statsOf: map<string, Stats>, crit: Criteria) {
    forall n :: n in names ==> n in statsOf && Comparable(crit.cfg, statsOf[n])
  }

  /** The split sets after the loop has seen `names`, drawing draws[k] for names[k]. */
  function SplitSpec(names: seq<string>, draws: seq<int>, statsOf: map<string, Stats>, crit: Criteria,
                     sigOf: string -> TimeSig, g: nat): Splits
    requires |draws| == |names| && Known(names, statsOf, crit)
  {
    if names == [] then Splits({}, {}, {}, {}, {}, {})
    else
      var k := |names| - 1;
      var before := SplitSpec(names[..k], draws[..k], statsOf, crit, sigOf, g);
      if Placed(names[k], statsOf, crit, sigOf, g) then Deal(before, names[k], draws[k]) else before
  }

  /** The criteria that reject every name, under valid_score's tests. */
  function SplitReasonsMap(names: seq<string>, statsOf: map<string, Stats>, crit: Criteria,
                           sigOf: string -> TimeSig, g: nat): (rm: map<string, set<Filter>>)
    requires Known(names, statsOf, crit)
    ensures Judged(names, rm)
    ensures forall n :: n in names ==> rm[n] == SplitReasons(crit, statsOf[n], sigOf, g)
  {
    map n | n in names :: SplitReasons(crit, statsOf[n], sigOf, g)
  }

  /** The loop body for one name: valid_score, the '-' test, and the deal. */
  method SplitOne(sp: Splits, name: string, draw: int, statsOf: map<string, Stats>, crit: Criteria,
                  sigOf: string -> TimeSig, g: nat, ps: PruningStats)
    returns (next: Splits)
    requires name in statsOf && Comparable(crit.cfg, statsOf[name])
    requires SplitReasons(crit, statsOf[name], sigOf, g) <= ps.discarded.Keys
    modifies ps
    ensures next == if Placed(name, statsOf, crit, sigOf, g) then Deal(sp, name, draw) else sp
    ensures ps.discarded == AddTo(old(ps.discarded), SplitReasons(crit, statsOf[name], sigOf, g), name)
  {
    next := sp;
    var isDiscarded := ValidScore(name, statsOf, crit, sigOf, g, ps);
    if !isDiscarded {
      return;
    }
    if '-' !in name {
      return;
    }
    var dash := FirstDash(name);
    var ogScoreName := name[..dash];
    if ogScoreName in next.trainScores {
      next := next.(train := next.train + {name});
    } else if ogScoreName in next.validScores {
      next := next.(valid := next.valid + {name});
    } else if ogScoreName in next.testScores {
      next := next.(test := next.test + {name});
    } else {
      var n := draw;
      if n < 7 {
        next := next.(trainScores := next.trainScores + {ogScoreName}, train := next.train + {name});
      } else if n == 7 {
        next := next.(validScores := next.validScores + {ogScoreName}, valid := next.valid + {name});
      } else {
        next := next.(testScores := next.testScores + {ogScoreName}, test := next.test + {name});
      }
    }
  }

  /**
    The split loop of split_dataset.py over the names of score_to_stats,
    in dictionary order, with valid_score called as `if not
    valid_score(...): continue`.
   */
  method Split(names: seq<string>, draws: seq<int>, statsOf: map<string, Stats>, crit: Criteria,
               sigOf: string -> TimeSig, g: nat, ps: PruningStats)
    returns (sp: Splits)
    requires |draws| == |names| && Known(names, statsOf, crit)
    requires forall n :: n in names ==> SplitReasons(crit, statsOf[n], sigOf, g) <= ps.discarded.Keys
    modifies ps
    ensures sp == SplitSpec(names, draws, statsOf, crit, sigOf, g)
    ensures ps.discarded == DiscardAll(old(ps.discarded), names, SplitReasonsMap(names, statsOf, crit, sigOf, g))
  {
    ghost var rm := SplitReasonsMap(names, statsOf, crit, sigOf, g);
    sp := Splits({}, {}, {}, {}, {}, {});
    var k := 0;
    while k < |names|
      invariant 0 <= k <= |names|
      invariant sp == SplitSpec(names[..k], draws[..k], statsOf, crit, sigOf, g)
      invariant ps.discarded == DiscardAll(old(ps.discarded), names[..k], rm)
      invariant ps.discarded.Keys == old(ps.discarded).Keys
    {
      assert names[..k + 1][..k] == names[..k] && draws[..k + 1][..k] == draws[..k];
      sp := SplitOne(sp, names[k], draws[k], statsOf, crit, sigOf, g, ps);
      k := k + 1;
    }
    assert names[..k] == names && draws[..k] == draws;
  }

  /**
    The split invariant: the three cut sets are pairwise disjoint, so are
    the three original-score sets, and every cut sits in the split its
    original score was dealt to.
   */
  predicate ValidSplits(sp: Splits) {
    sp.train !! sp.valid && sp.train !! sp.test && sp.valid !! sp.test &&
    sp.trainScores !! sp.validScores && sp.trainScores !! sp.testScores && sp.validScores !! sp.testScores &&
    (forall n :: n in sp.train ==> Dashed(n) && OriginalName(n) in sp.trainScores) &&
    (forall n :: n in sp.valid ==> Dashed(n) && OriginalName(n) in sp.validScores) &&
    (forall n :: n in sp.test ==> Dashed(n) && OriginalName(n) in sp.testScores)
  }

  /** One deal keeps the invariant. */
  lemma DealValid(sp: Splits, name: string, draw: int)
    requires ValidSplits(sp) && Dashed(name)
    ensures ValidSplits(Deal(sp, name, draw))
  {
    var og := OriginalName(name);
    var next := Deal(sp, name, draw);
    if og !in sp.trainScores && og !in sp.validScores && og !in sp.testScores {
      assert name !in sp.train && name !in sp.valid && name !in sp.test;
    } else if og in sp.trainScores {
      assert name !in sp.valid && name !in sp.test;
    } else if og in sp.validScores {
      assert name !in sp.train && name !in sp.test;
    } else {
      assert name !in sp.train && name !in sp.valid;
    }
  }

  /** The loop keeps the invariant from the empty sets on. */
  lemma {:induction false} SplitSpecValid(names: seq<string>, draws: seq<int>, statsOf: map<string, Stats>,
                                          crit: Criteria, sigOf: string -> TimeSig, g: nat)
    requires |draws| == |names| && Known(names, statsOf, crit)
    ensures ValidSplits(SplitSpec(names, draws, statsOf, crit, sigOf, g))
  {
    if names != [] {
      var k := |names| - 1;
      assert forall n :: n in names[..k] ==> n in names;
      SplitSpecValid(names[..k], draws[..k], statsOf, crit, sigOf, g);
      if Placed(names[k], statsOf, crit, sigOf, g) {
        DealValid(SplitSpec(names[..k], draws[..k], statsOf, crit, sigOf, g), names[k], draws[k]);
      }
    }
  }

  /** Two cuts of the same original score that were both placed are in the same split. */
  lemma SameOriginalSameSplit(sp: Splits, a: string, b: string)
    requires ValidSplits(sp)
    requires a in sp.train + sp.valid + sp.test && b in sp.train + sp.valid + sp.test
    requires Dashed(a) && Dashed(b) && OriginalName(a) == OriginalName(b)
    ensures (a in sp.train <==> b in sp.train) && (a in sp.valid <==> b in sp.valid) && (a in sp.test <==> b in sp.test)
  {
  }

  /** A deal places exactly the dealt name, in one split. */
  lemma DealPlaces(sp: Splits, name: string, draw: int, n: string)
    requires Dashed(name)
    ensures var next := Deal(sp, name, draw);
      (n in next.train + next.valid + next.test <==> n in sp.train + sp.valid + sp.test || n == name)
  {
  }

  /**
    A name ends up in some split exactly when it is among the inputs,
    valid_score discarded it and it has a '-'.
   */
  lemma {:induction false} SplitSpecPlaced(names: seq<string>, draws: seq<int>, statsOf: map<string, Stats>,
                                           crit: Criteria, sigOf: string -> TimeSig, g: nat, n: string)
    requires |draws| == |names| && Known(names, statsOf, crit)
    ensures var sp := SplitSpec(names, draws, statsOf, crit, sigOf, g);
      n in sp.train + sp.valid + sp.test <==> n in names && Placed(n, statsOf, crit, sigOf, g)
  {
    if names != [] {
      var k := |names| - 1;
      assert forall m :: m in names[..k] ==> m in names;
      assert names == names[..k] + [names[k]];
      SplitSpecPlaced(names[..k], draws[..k], statsOf, crit, sigOf, g, n);
      if Placed(names[k], statsOf, crit, sigOf, g) {
        DealPlaces(SplitSpec(names[..k], draws[..k], statsOf, crit, sigOf, g), names[k], draws[k], n);
      }
    }
  }

  /**
    The selection the loop evidently intends: no criterion rejects the
    score, with the divisibility test of create_dataset.py (reject a score
    that is NOT '1%+_divisible').
   */
  predicate IntendedFires(crit: Criteria, st: Stats, sigOf: string -> TimeSig, g: nat, f: Filter)
    requires Comparable(crit.cfg, st)
  {
    if f == PercentDivisible then Fires(crit.cfg, st, f) else SplitFires(crit, st, sigOf, g, f)
  }

  predicate Eligible(crit: Criteria, st: Stats, sigOf: string -> TimeSig, g: nat)
    requires Comparable(crit.cfg, st)
  {
    forall f :: f in AllFilters ==> !IntendedFires(crit, st, sigOf, g, f)
  }

  /**
    Under the split's own criteria a score is eligible exactly when it has
    one to four parts, all its pitches on the piano, fewer than one percent
    indivisible notes, one time signature, and measures adding up to 192
    steps.
   */
  lemma EligibleMeaning(st: Stats, sigOf: string -> TimeSig, g: nat)
    requires Comparable(SplitCriteria().cfg, st)
    ensures Eligible(SplitCriteria(), st, sigOf, g) <==>
      1 <= st.numParts <= 4 && MinPitch <= st.minNote.value && st.maxNote.value <= MaxPitch &&
      st.onePercentDivisible && |st.timeSignatures| == 1 &&
      forall r :: r in st.timeSignatures ==> !StepsMismatch(48 * 4, st.numMeasures, sigOf(r), g)
  {
    var crit := SplitCriteria();
    assert RangeChecked(crit.cfg);
    if Eligible(crit, st, sigOf, g) {
      assert !IntendedFires(crit, st, sigOf, g, NumParts);
      assert !IntendedFires(crit, st, sigOf, g, NoteRange);
      assert !IntendedFires(crit, st, sigOf, g, PercentDivisible);
      assert !IntendedFires(crit, st, sigOf, g, NumSteps);
    }
  }

  /**
    Every eligible score is discarded by valid_score as written (its
    inverted divisibility test fires), so the loop places it: the as-written
    split contains every eligible cut.
   */
  lemma EligiblePlacedAsWritten(name: string, st: Stats, sigOf: string -> TimeSig, g: nat)
    requires Comparable(SplitCriteria().cfg, st) && Eligible(SplitCriteria(), st, sigOf, g) && Dashed(name)
    ensures Placed(name, map[name := st], SplitCriteria(), sigOf, g)
  {
    var crit := SplitCriteria();
    assert !IntendedFires(crit, st, sigOf, g, ConsistentParts);
    assert PercentDivisible in AllFilters && SplitFires(crit, st, sigOf, g, PercentDivisible);
    assert PercentDivisible in SplitReasons(crit, st, sigOf, g);
    assert map[name := st][name] == st;
  }

  /**
    The as-written loop also places scores its criteria reject: a cut of a
    five-part score is placed, although it is not eligible.
   */
  lemma FivePartScorePlaced(sigOf: string -> TimeSig, g: nat)
    ensures var st := Stats("", 5, false, 16, true, Some(60), Some(72), Some(4.0), true, true, 0.0,
                            {"4/4"}, {"C"}, true, true, true);
      Comparable(SplitCriteria().cfg, st) &&
      Placed("bwv1-0", map["bwv1-0" := st], SplitCriteria(), sigOf, g) &&
      !Eligible(SplitCriteria(), st, sigOf, g)
  {
    var st := Stats("", 5, false, 16, true, Some(60), Some(72), Some(4.0), true, true, 0.0,
                    {"4/4"}, {"C"}, true, true, true);
    var crit := SplitCriteria();
    assert NumParts in AllFilters && SplitFires(crit, st, sigOf, g, NumParts);
    assert NumParts in SplitReasons(crit, st, sigOf, g);
    assert '-' == "bwv1-0"[4];
    assert IntendedFires(crit, st, sigOf, g, NumParts);
  }
}
