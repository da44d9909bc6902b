/**
  The three-channel piano roll of task_6/encode_dataset.py and its MIDI
  decoder.

  Encoding: a (steps x 88 x 3) grid. For every pitch of an encodable event
  the first row of its run sets channel 1 (onset) and the remaining rows set
  channel 2 (sustain); channel 0 is never written.

  Decoding: the state of a cell is the argmax over its three channels (ties
  to the lowest channel). Time step by time step, every pitch's previous
  and current state decide NoteOff and NoteOn commands; all NoteOffs of a
  step precede its NoteOns. The first event of a step carries the delta
  (time - lastcmdtime) * 55, and every event sets lastcmdtime to the step.
 */
module OnsetRoll {
  import opened Music
  import opened PianoRoll

  // ---------------------------------------------------------------------
  // Encoding

  /** Channel ch of cell (r, c) belongs to mark m: its first row on channel 1, the rest on channel 2. */
  predicate Covers3(m: Mark, r: int, c: int, ch: int) {
    m.len > 0 && WrapCol(m.col) == c &&
    ((ch == 1 && r == m.row) || (ch == 2 && m.row < r < m.row + m.len))
  }

  /** The cell (r, c, ch) after writing the marks, in order, into a zero grid. */
  function Cell3(ms: seq<Mark>, r: int, c: int, ch: int): int {
    if ms == [] then 0
    else if Covers3(ms[|ms| - 1], r, c, ch) then 1
    else Cell3(ms[..|ms| - 1], r, c, ch)
  }

  lemma Cell3Snoc(ms: seq<Mark>, m: Mark)
    ensures forall r, c, ch :: Cell3(ms + [m], r, c, ch) == if Covers3(m, r, c, ch) then 1 else Cell3(ms, r, c, ch)
  {
    assert (ms + [m])[..|ms|] == ms;
  }

  /** A channel is 1 exactly when some mark covers it on that channel; channel 0 stays 0. */
  lemma {:induction false} Cell3Covered(ms: seq<Mark>, r: int, c: int, ch: int)
    ensures Cell3(ms, r, c, ch) == 1 <==> exists k :: 0 <= k < |ms| && Covers3(ms[k], r, c, ch)
    ensures Cell3(ms, r, c, ch) == 0 || Cell3(ms, r, c, ch) == 1
    ensures ch == 0 ==> Cell3(ms, r, c, ch) == 0
  {
    if ms != [] {
      var n := |ms| - 1;
      Cell3Covered(ms[..n], r, c, ch);
      if Cell3(ms[..n], r, c, ch) == 1 {
        var k :| 0 <= k < n && Covers3(ms[..n][k], r, c, ch);
        assert Covers3(ms[k], r, c, ch);
      }
      if k :| 0 <= k < |ms| && Covers3(ms[k], r, c, ch) {
        if k < n {
          assert Covers3(ms[..n][k], r, c, ch);
        }
      }
    }
  }

  ghost predicate Grid3Is(grid: array3<int>, ms: seq<Mark>)
    reads grid
  {
    forall r, c, ch :: 0 <= r < grid.Length0 && 0 <= c < grid.Length1 && 0 <= ch < grid.Length2 ==>
      grid[r, c, ch] == Cell3(ms, r, c, ch)
  }

  /** Writes one mark: onset on its first row, sustain on the others; false where numpy raises IndexError. */
  method PaintRun3(grid: array3<int>, m: Mark, ghost ms: seq<Mark>) returns (ok: bool)
    requires grid.Length1 == NoteRange && grid.Length2 == 3 && Grid3Is(grid, ms)
    modifies grid
    ensures ok == Fits(m, grid.Length0)
    ensures ok ==> Grid3Is(grid, ms + [m])
  {
    var i := 0;
    while i < m.len
      invariant 0 <= i <= m.len
      invariant i > 0 ==> m.row + i <= grid.Length0 && -NoteRange <= m.col < NoteRange
      invariant Grid3Is(grid, ms + [Mark(m.row, i, m.col)])
    {
      if m.row + i >= grid.Length0 || m.col < -NoteRange || m.col >= NoteRange {
        return false;
      }
      Cell3Snoc(ms, Mark(m.row, i, m.col));
      Cell3Snoc(ms, Mark(m.row, i + 1, m.col));
      if i == 0 {
        grid[m.row + i, WrapCol(m.col), 1] := 1;
      } else {
        grid[m.row + i, WrapCol(m.col), 2] := 1;
      }
      i := i + 1;
    }
    ok := true;
  }

  method PaintEvent3(grid: array3<int>, e: Event, g: nat, lay: Layout, ghost done: seq<Mark>) returns (ok: bool)
    requires ValidLayout(lay) && WellFormed(e)
    requires grid.Length1 == NoteRange && grid.Length2 == 3 && Grid3Is(grid, done)
    modifies grid
    ensures ok ==> Grid3Is(grid, done + EventMarks(e, g, lay)) && AllFit(EventMarks(e, g, lay), grid.Length0)
    ensures !ok ==> exists q :: 0 <= q < |EventMarks(e, g, lay)| && !Fits(EventMarks(e, g, lay)[q], grid.Length0)
  {
    ghost var em := EventMarks(e, g, lay);
    ok := true;
    if Encodable(e, g) {
      var ps := Pitches(e.kind);
      var q := 0;
      assert done + em[..0] == done;
      while q < |ps|
        invariant 0 <= q <= |ps| == |em|
        invariant AllFit(em[..q], grid.Length0)
        invariant Grid3Is(grid, done + em[..q])
      {
        var m := Mark(StartRow(e, g, lay), StepCount(e, g), ps[q] - MinPitch);
        assert m == em[q];
        ok := PaintRun3(grid, m, done + em[..q]);
        if !ok {
          return;
        }
        assert em[..q + 1] == em[..q] + [m];
        assert done + em[..q + 1] == (done + em[..q]) + [m];
        q := q + 1;
      }
      assert em[..q] == em;
    } else {
      assert done + em == done;
    }
  }

  /**
    encode_score(score, num_measures, steps_per_cut): a zero
    (steps_per_cut x 88 x 3) grid; events are placed with
    steps_per_measure = steps_per_cut / num_measures.
   */
  method EncodeScore(evs: seq<Event>, g: nat, numMeasures: nat, stepsPerCut: nat) returns (grid: array3<int>, ok: bool)
    requires numMeasures > 0 && AllWellFormed(evs)
    ensures fresh(grid) && grid.Length0 == stepsPerCut && grid.Length1 == NoteRange && grid.Length2 == 3
    ensures ok == AllFit(ScoreMarks(evs, g, Layout(numMeasures, stepsPerCut as real / numMeasures as real)), stepsPerCut)
    ensures ok ==> Grid3Is(grid, ScoreMarks(evs, g, Layout(numMeasures, stepsPerCut as real / numMeasures as real)))
  {
    var lay := Layout(numMeasures, stepsPerCut as real / numMeasures as real);
    grid := new int[stepsPerCut, NoteRange, 3]((r, c, ch) => 0);
    assert ScoreMarks(evs[..0], g, lay) == [];
    var j := 0;
    while j < |evs|
      invariant 0 <= j <= |evs|
      invariant grid.Length0 == stepsPerCut && grid.Length1 == NoteRange && grid.Length2 == 3
      invariant AllFit(ScoreMarks(evs[..j], g, lay), stepsPerCut)
      invariant Grid3Is(grid, ScoreMarks(evs[..j], g, lay))
    {
      ScoreMarksSnoc(evs, j, g, lay);
      ok := PaintEvent3(grid, evs[j], g, lay, ScoreMarks(evs[..j], g, lay));
      if !ok {
        var q :| 0 <= q < |EventMarks(evs[j], g, lay)| && !Fits(EventMarks(evs[j], g, lay)[q], stepsPerCut);
        MarkOfCutFails(evs, j, q, g, lay, stepsPerCut);
        return;
      }
      j := j + 1;
    }
    assert evs[..|evs|] == evs;
    ok := true;
  }

  /**
    The first row of every encoded note is an onset, its later rows are
    sustained, and nothing else is set: channel 1 of (r, c) is set exactly
    when a note of column c starts at r, channel 2 exactly when one is held
    past its first row at r.
   */
  lemma EncodedChannels(ms: seq<Mark>, r: int, c: int)
    ensures Cell3(ms, r, c, 0) == 0
    ensures Cell3(ms, r, c, 1) == 1 <==> exists k :: 0 <= k < |ms| && ms[k].len > 0 && ms[k].row == r && WrapCol(ms[k].col) == c
    ensures Cell3(ms, r, c, 2) == 1 <==> exists k :: 0 <= k < |ms| && ms[k].row < r < ms[k].row + ms[k].len && WrapCol(ms[k].col) == c
  {
    Cell3Covered(ms, r, c, 0);
    Cell3Covered(ms, r, c, 1);
    Cell3Covered(ms, r, c, 2);
  }

  // ---------------------------------------------------------------------
  // Decoding

  const TickScale: int := 55
  const Velocity: int := 40

  /** np.argmax over the three channels: the first index of the largest value. */
  function Argmax3(a: int, b: int, c: int): (s: int)
    ensures 0 <= s <= 2
    ensures s == 0 ==> a >= b && a >= c
    ensures s == 1 ==> b > a && b >= c
    ensures s == 2 ==> c > a && c > b
  {
    if a >= b && a >= c then 0 else if b >= c then 1 else 2
  }

  /** On an encoded cell: empty is state 0, any onset is state 1, sustain alone is state 2. */
  lemma EncodedCellState(ms: seq<Mark>, r: int, c: int)
    ensures var s := Argmax3(Cell3(ms, r, c, 0), Cell3(ms, r, c, 1), Cell3(ms, r, c, 2));
      (s == 1 <==> Cell3(ms, r, c, 1) == 1) &&
      (s == 2 <==> Cell3(ms, r, c, 1) == 0 && Cell3(ms, r, c, 2) == 1) &&
      (s == 0 <==> Cell3(ms, r, c, 1) == 0 && Cell3(ms, r, c, 2) == 0)
  {
    Cell3Covered(ms, r, c, 0);
    Cell3Covered(ms, r, c, 1);
    Cell3Covered(ms, r, c, 2);
  }

  /** Row t of np.argmax(piece, axis=2): each pitch's state in {0, 1, 2}. */
  function StepState(piece: array3<int>, t: nat): (state: seq<int>)
    requires piece.Length2 == 3 && t < piece.Length0
    reads piece
    ensures |state| == piece.Length1 && forall i :: 0 <= i < |state| ==> 0 <= state[i] <= 2
  {
    seq(piece.Length1, i requires 0 <= i < piece.Length1 reads piece =>
      Argmax3(piece[t, i, 0], piece[t, i, 1], piece[t, i, 2]))
  }

  /** The state matrix np.argmax(piece, axis=2). */
  function States(piece: array3<int>): seq<seq<int>>
    requires piece.Length2 == 3
    reads piece
  {
    seq(piece.Length0, t requires 0 <= t < piece.Length0 reads piece => StepState(piece, t))
  }

  /** A state matrix with 88 pitches per step and every state in {0, 1, 2}. */
  predicate StateMatrix(states: seq<seq<int>>) {
    forall t :: 0 <= t < |states| ==> |states[t]| == NoteRange && forall i :: 0 <= i < NoteRange ==> 0 <= states[t][i] <= 2
  }

  /** A pitch turns off when it was on (1 or 2) and is now off (0) or struck again (1). */
  predicate OffAt(p: int, n: int) {
    (p == 1 || p == 2) && (n == 0 || n == 1)
  }

  /** A pitch is struck when its state is 1, whatever it was before (0, 1 or 2). */
  predicate OnAt(p: int, n: int) {
    (p == 0 || p == 1 || p == 2) && n == 1
  }

  /** Every element of a sequence whose members all lie below n lies below n. */
  lemma MembersBelow(cs: seq<int>, n: int)
    requires forall c :: c in cs ==> c < n
    ensures forall k :: 0 <= k < |cs| ==> cs[k] < n
  {
    forall k | 0 <= k < |cs|
      ensures cs[k] < n
    {
      assert cs[k] in cs;
    }
  }

  /** offNotes of one step: the columns that turn off, in increasing order. */
  function OffCols(prev: seq<int>, cur: seq<int>): (cs: seq<int>)
    requires |prev| == |cur|
    ensures forall c :: c in cs <==> 0 <= c < |cur| && OffAt(prev[c], cur[c])
    ensures forall i, j :: 0 <= i < j < |cs| ==> cs[i] < cs[j]
  {
    if prev == [] then []
    else
      var n := |prev| - 1;
      var front := OffCols(prev[..n], cur[..n]);
      MembersBelow(front, n);
      front + (if OffAt(prev[n], cur[n]) then [n] else [])
  }

  /** onNotes of one step: the columns struck, in increasing order. */
  function OnCols(prev: seq<int>, cur: seq<int>): (cs: seq<int>)
    requires |prev| == |cur|
    ensures forall c :: c in cs <==> 0 <= c < |cur| && OnAt(prev[c], cur[c])
    ensures forall i, j :: 0 <= i < j < |cs| ==> cs[i] < cs[j]
  {
    if prev == [] then []
    else
      var n := |prev| - 1;
      var front := OnCols(prev[..n], cur[..n]);
      MembersBelow(front, n);
      front + (if OnAt(prev[n], cur[n]) then [n] else [])
  }

  datatype MidiEvent = NoteOff(tick: int, pitch: int) | NoteOn(tick: int, velocity: int, pitch: int) | EndOfTrack(tick: int)

  /** The events of one step: first the NoteOffs, then the NoteOns; only the first carries the delta. */
  function StepEvents(offs: seq<int>, ons: seq<int>, t: nat, last: nat): seq<MidiEvent>
    requires last <= t
  {
    seq(|offs|, i requires 0 <= i < |offs| => NoteOff(if i == 0 then (t - last) * TickScale else 0, offs[i] + MinPitch)) +
    seq(|ons|, i requires 0 <= i < |ons| => NoteOn(if i == 0 && |offs| == 0 then (t - last) * TickScale else 0, Velocity, ons[i] + MinPitch))
  }

  datatype RunState = RunState(events: seq<MidiEvent>, last: nat)

  /** The all-zero state that precedes the first step. */
  function Silence(): (z: seq<int>)
    ensures |z| == NoteRange && forall i :: 0 <= i < NoteRange ==> z[i] == 0
  {
    seq(NoteRange, i => 0)
  }

  /** The state before step n: all zero before the first step. */
  function PrevState(states: seq<seq<int>>, n: nat): seq<int>
    requires n < |states|
  {
    if n == 0 then Silence() else states[n - 1]
  }

  /** The events and lastcmdtime after the first n steps of the decoder's loop. */
  function Run(states: seq<seq<int>>, n: nat): (r: RunState)
    requires StateMatrix(states) && n <= |states|
    ensures r.last <= n
    ensures r.last < n || n == 0
  {
    if n == 0 then RunState([], 0)
    else
      var pre := Run(states, n - 1);
      var prev, cur := PrevState(states, n - 1), states[n - 1];
      var offs, ons := OffCols(prev, cur), OnCols(prev, cur);
      RunState(pre.events + StepEvents(offs, ons, n - 1, pre.last),
               if |offs| + |ons| == 0 then pre.last else n - 1)
  }

  /** Step t of the decoder's loop emits at least one NoteOff or NoteOn. */
  predicate Emits(states: seq<seq<int>>, t: nat)
    requires StateMatrix(states) && t < |states|
  {
    |OffCols(PrevState(states, t), states[t])| + |OnCols(PrevState(states, t), states[t])| > 0
  }

  /**
    lastcmdtime after n steps is the last step before n that emitted an
    event, or 0 when none did.
   */
  lemma {:induction false} RunLast(states: seq<seq<int>>, n: nat)
    requires StateMatrix(states) && n <= |states|
    ensures Run(states, n).last == 0 || (Run(states, n).last < n && Emits(states, Run(states, n).last))
    ensures forall t :: Run(states, n).last < t < n ==> !Emits(states, t)
  {
    if n > 0 {
      RunLast(states, n - 1);
      LastStep(states, n);
      var last, before := Run(states, n).last, Run(states, n - 1).last;
      if !Emits(states, n - 1) {
        assert last == before;
        forall t | last < t < n
          ensures !Emits(states, t)
        {
          if t < n - 1 {
            assert before < t < n - 1;
          }
        }
      }
    }
  }

  /** One step moves lastcmdtime to that step exactly when the step emits. */
  lemma LastStep(states: seq<seq<int>>, n: nat)
    requires StateMatrix(states) && 0 < n <= |states|
    ensures Run(states, n).last == if Emits(states, n - 1) then n - 1 else Run(states, n - 1).last
  {
  }

  /** The whole track as written: the steps of the state matrix, then EndOfTrack(tick=1). */
  function Track(states: seq<seq<int>>): seq<MidiEvent>
    requires StateMatrix(states)
  {
    Run(states, |states|).events + [EndOfTrack(1)]
  }

  /** The inner loop over the 88 pitches: which columns turn off and which are struck. */
  method Transitions(prevstate: seq<int>, state: seq<int>) returns (offNotes: seq<int>, onNotes: seq<int>)
    requires |prevstate| == |state|
    ensures offNotes == OffCols(prevstate, state) && onNotes == OnCols(prevstate, state)
  {
    offNotes, onNotes := [], [];
    var i := 0;
    while i < |state|
      invariant 0 <= i <= |state|
      invariant offNotes == OffCols(prevstate[..i], state[..i])
      invariant onNotes == OnCols(prevstate[..i], state[..i])
    {
      assert prevstate[..i + 1][..i] == prevstate[..i] && state[..i + 1][..i] == state[..i];
      var n, p := state[i], prevstate[i];
      if p == 0 {
        if n == 1 {
          onNotes := onNotes + [i];
        }
      } else if p == 1 {
        if n == 0 {
          offNotes := offNotes + [i];
        }
        if n == 1 {
          offNotes := offNotes + [i];
          onNotes := onNotes + [i];
        }
      } else if p == 2 {
        if n == 0 {
          offNotes := offNotes + [i];
        }
        if n == 1 {
          offNotes := offNotes + [i];
          onNotes := onNotes + [i];
        }
      }
      i := i + 1;
    }
    assert prevstate[..i] == prevstate && state[..i] == state;
  }

  /** Appends the NoteOffs and then the NoteOns of one step, moving lastcmdtime to the step on each. */
  method EmitStep(track0: seq<MidiEvent>, offNotes: seq<int>, onNotes: seq<int>, time: nat, last0: nat)
    returns (track: seq<MidiEvent>, lastcmdtime: nat)
    requires last0 <= time
    ensures track == track0 + StepEvents(offNotes, onNotes, time, last0)
    ensures lastcmdtime == if |offNotes| + |onNotes| == 0 then last0 else time
  {
    track, lastcmdtime := track0, last0;
    var k := 0;
    while k < |offNotes|
      invariant 0 <= k <= |offNotes|
      invariant lastcmdtime == if k == 0 then last0 else time
      invariant track == track0 + StepEvents(offNotes[..k], [], time, last0)
    {
      track := track + [NoteOff((time - lastcmdtime) * TickScale, offNotes[k] + MinPitch)];
      lastcmdtime := time;
      k := k + 1;
    }
    assert offNotes[..k] == offNotes;
    k := 0;
    while k < |onNotes|
      invariant 0 <= k <= |onNotes|
      invariant lastcmdtime == if k == 0 && |offNotes| == 0 then last0 else time
      invariant track == track0 + StepEvents(offNotes, onNotes[..k], time, last0)
    {
      track := track + [NoteOn((time - lastcmdtime) * TickScale, Velocity, onNotes[k] + MinPitch)];
      lastcmdtime := time;
      k := k + 1;
    }
    assert onNotes[..k] == onNotes;
  }

  /**
    decode_score(piece) up to the MIDI file: the state matrix, then the
    per-step transition loop, then EndOfTrack.
   */
  method DecodeTrack(piece: array3<int>) returns (track: seq<MidiEvent>)
    requires piece.Length1 == NoteRange && piece.Length2 == 3
    ensures StateMatrix(States(piece)) && track == Track(States(piece))
  {
    ghost var states := States(piece);
    assert StateMatrix(states);
    var lastcmdtime := 0;
    var prevstate := Silence();
    track := [];
    var time := 0;
    while time < piece.Length0
      invariant 0 <= time <= piece.Length0
      invariant track == Run(states, time).events && lastcmdtime == Run(states, time).last
      invariant prevstate == if time == 0 then Silence() else states[time - 1]
    {
      var state := StepState(piece, time);
      var offNotes, onNotes := Transitions(prevstate, state);
      track, lastcmdtime := EmitStep(track, offNotes, onNotes, time, lastcmdtime);
      prevstate := state;
      time := time + 1;
    }
    track := track + [EndOfTrack(1)];
  }

  // ---------------------------------------------------------------------
  // Properties of the decoded track

  /** The events of step t of the decoder's loop. */
  function StepOf(states: seq<seq<int>>, t: nat): seq<MidiEvent>
    requires StateMatrix(states) && t < |states|
  {
    StepEvents(OffCols(PrevState(states, t), states[t]), OnCols(PrevState(states, t), states[t]), t, Run(states, t).last)
  }

  /** Some NoteOn (on = true) or NoteOff (on = false) for pitch p occurs among the events. */
  predicate HasCommand(evs: seq<MidiEvent>, on: bool, p: int) {
    exists i :: 0 <= i < |evs| && (if on then evs[i].NoteOn? else evs[i].NoteOff?) && evs[i].pitch == p
  }

  /**
    Within one step every NoteOff precedes every NoteOn, only the first
    event carries a delta, and that delta is the time since the last
    command in units of 55 ticks.
   */
  lemma StepShape(offs: seq<int>, ons: seq<int>, t: nat, last: nat)
    requires last <= t
    ensures var ev := StepEvents(offs, ons, t, last);
      |ev| == |offs| + |ons| &&
      (forall i, j :: 0 <= i < j < |ev| ==> !(ev[i].NoteOn? && ev[j].NoteOff?)) &&
      (forall i :: 0 < i < |ev| ==> ev[i].tick == 0) &&
      (|ev| > 0 ==> ev[0].tick == (t - last) * TickScale) &&
      (forall i :: 0 <= i < |ev| ==> !ev[i].EndOfTrack? && (ev[i].NoteOn? ==> ev[i].velocity == Velocity))
  {
  }

  /** The state before any step is a state of the matrix too: every value in {0, 1, 2}. */
  lemma PrevStateRange(states: seq<seq<int>>, t: nat)
    requires StateMatrix(states) && t < |states|
    ensures |PrevState(states, t)| == NoteRange
    ensures forall c :: 0 <= c < NoteRange ==> 0 <= PrevState(states, t)[c] <= 2
  {
  }

  /** A NoteOn for p among a step's events exactly when its column is struck. */
  lemma StepOns(offs: seq<int>, ons: seq<int>, t: nat, last: nat, p: int)
    requires last <= t
    ensures HasCommand(StepEvents(offs, ons, t, last), true, p) <==> (p - MinPitch) in ons
  {
    var ev := StepEvents(offs, ons, t, last);
    if HasCommand(ev, true, p) {
      var i :| 0 <= i < |ev| && ev[i].NoteOn? && ev[i].pitch == p;
      assert ons[i - |offs|] == p - MinPitch;
    }
    if (p - MinPitch) in ons {
      var j :| 0 <= j < |ons| && ons[j] == p - MinPitch;
      assert ev[|offs| + j].NoteOn? && ev[|offs| + j].pitch == p;
    }
  }

  /** A NoteOff for p among a step's events exactly when its column is released. */
  lemma StepOffs(offs: seq<int>, ons: seq<int>, t: nat, last: nat, p: int)
    requires last <= t
    ensures HasCommand(StepEvents(offs, ons, t, last), false, p) <==> (p - MinPitch) in offs
  {
    var ev := StepEvents(offs, ons, t, last);
    if HasCommand(ev, false, p) {
      var i :| 0 <= i < |ev| && ev[i].NoteOff? && ev[i].pitch == p;
      assert offs[i] == p - MinPitch;
    }
    if (p - MinPitch) in offs {
      var j :| 0 <= j < |offs| && offs[j] == p - MinPitch;
      assert ev[j].NoteOff? && ev[j].pitch == p;
    }
  }

  /**
    What one step emits: a NoteOn for pitch p exactly when p's state is 1,
    and a NoteOff exactly when p was held (state 1 or 2) and is now
    released (0) or struck again (1).
   */
  lemma StepMeaning(states: seq<seq<int>>, t: nat, p: int)
    requires StateMatrix(states) && t < |states|
    ensures HasCommand(StepOf(states, t), true, p) <==> MinPitch <= p <= MaxPitch && states[t][p - MinPitch] == 1
    ensures HasCommand(StepOf(states, t), false, p) <==>
      MinPitch <= p <= MaxPitch && OffAt(PrevState(states, t)[p - MinPitch], states[t][p - MinPitch])
  {
    var prev, cur := PrevState(states, t), states[t];
    PrevStateRange(states, t);
    var offs, ons := OffCols(prev, cur), OnCols(prev, cur);
    StepOns(offs, ons, t, Run(states, t).last, p);
    StepOffs(offs, ons, t, Run(states, t).last, p);
  }

  /** A step's events carry pitches on the keyboard when its columns are in range. */
  lemma StepPitches(offs: seq<int>, ons: seq<int>, t: nat, last: nat)
    requires last <= t
    requires forall j :: 0 <= j < |offs| ==> 0 <= offs[j] < NoteRange
    requires forall j :: 0 <= j < |ons| ==> 0 <= ons[j] < NoteRange
    ensures forall i :: 0 <= i < |StepEvents(offs, ons, t, last)| ==>
      !StepEvents(offs, ons, t, last)[i].EndOfTrack? && MinPitch <= StepEvents(offs, ons, t, last)[i].pitch <= MaxPitch
  {
  }

  /** Every note event of the decoded track is on the keyboard, A0 to C8. */
  lemma {:induction false} RunPitches(states: seq<seq<int>>, n: nat)
    requires StateMatrix(states) && n <= |states|
    ensures forall i :: 0 <= i < |Run(states, n).events| ==>
      !Run(states, n).events[i].EndOfTrack? && MinPitch <= Run(states, n).events[i].pitch <= MaxPitch
  {
    if n > 0 {
      RunPitches(states, n - 1);
      var pre := Run(states, n - 1);
      var prev, cur := PrevState(states, n - 1), states[n - 1];
      PrevStateRange(states, n - 1);
      var offs, ons := OffCols(prev, cur), OnCols(prev, cur);
      assert forall j :: 0 <= j < |offs| ==> offs[j] in offs;
      assert forall j :: 0 <= j < |ons| ==> ons[j] in ons;
      StepPitches(offs, ons, n - 1, pre.last);
      var ev := StepEvents(offs, ons, n - 1, pre.last);
      assert Run(states, n).events == pre.events + ev;
    }
  }

  /** The sum of the ticks of a list of events. */
  function TickTotal(evs: seq<MidiEvent>): int {
    if evs == [] then 0 else TickTotal(evs[..|evs| - 1]) + evs[|evs| - 1].tick
  }

  lemma {:induction false} TickTotalAppend(a: seq<MidiEvent>, b: seq<MidiEvent>)
    ensures TickTotal(a + b) == TickTotal(a) + TickTotal(b)
    decreases |b|
  {
    if b == [] {
      assert a + b == a;
    } else {
      assert (a + b)[..|a + b| - 1] == a + b[..|b| - 1];
      assert (a + b)[|a + b| - 1] == b[|b| - 1];
      TickTotalAppend(a, b[..|b| - 1]);
    }
  }

  /** Events of which only the first carries ticks total that first tick. */
  lemma {:induction false} FirstTickTotal(evs: seq<MidiEvent>)
    requires forall i :: 0 < i < |evs| ==> evs[i].tick == 0
    ensures TickTotal(evs) == if evs == [] then 0 else evs[0].tick
  {
    if |evs| > 1 {
      FirstTickTotal(evs[..|evs| - 1]);
    } else if |evs| == 1 {
      assert evs[..0] == [];
    }
  }

  /**
    Deltas are relative: the ticks of the events so far add up to 55 times
    the step of the last command, so each event sits at 55 ticks per step.
   */
  lemma {:induction false} RunTicks(states: seq<seq<int>>, n: nat)
    requires StateMatrix(states) && n <= |states|
    ensures TickTotal(Run(states, n).events) == TickScale * Run(states, n).last
  {
    if n > 0 {
      RunTicks(states, n - 1);
      var pre := Run(states, n - 1);
      var prev, cur := PrevState(states, n - 1), states[n - 1];
      var ev := StepEvents(OffCols(prev, cur), OnCols(prev, cur), n - 1, pre.last);
      StepShape(OffCols(prev, cur), OnCols(prev, cur), n - 1, pre.last);
      TickTotalAppend(pre.events, ev);
      FirstTickTotal(ev);
    }
  }

  /** The state of every cell of an encoded grid: 1 on an onset, 2 on a sustained row alone, 0 off any note. */
  lemma EncodedStates(piece: array3<int>, ms: seq<Mark>, t: int, c: int)
    requires piece.Length1 == NoteRange && piece.Length2 == 3 && Grid3Is(piece, ms)
    requires 0 <= t < piece.Length0 && 0 <= c < NoteRange
    ensures States(piece)[t][c] == 1 <==> exists k :: 0 <= k < |ms| && ms[k].len > 0 && ms[k].row == t && WrapCol(ms[k].col) == c
    ensures States(piece)[t][c] == 0 <==> forall k :: 0 <= k < |ms| ==> !Covers(ms[k], t, c)
  {
    EncodedCellState(ms, t, c);
    EncodedChannels(ms, t, c);
    assert States(piece)[t][c] == StepState(piece, t)[c] == Argmax3(Cell3(ms, t, c, 0), Cell3(ms, t, c, 1), Cell3(ms, t, c, 2));
    if exists k :: 0 <= k < |ms| && Covers(ms[k], t, c) {
      var k :| 0 <= k < |ms| && Covers(ms[k], t, c);
      assert Covers3(ms[k], t, c, 1) || Covers3(ms[k], t, c, 2);
      Cell3Covered(ms, t, c, 1);
      Cell3Covered(ms, t, c, 2);
    }
  }

  /** Some encodable event strikes pitch p at step t: one of its pitches, a run that starts at t. */
  ghost predicate StrikesAt(evs: seq<Event>, g: nat, lay: Layout, t: int, p: int)
    requires ValidLayout(lay) && AllWellFormed(evs)
  {
    exists k, i :: 0 <= k < |evs| && Encodable(evs[k], g) && 0 <= i < |Pitches(evs[k].kind)| &&
      Pitches(evs[k].kind)[i] == p && StartRow(evs[k], g, lay) == t && StepCount(evs[k], g) > 0
  }

  lemma OnsetOrigin(evs: seq<Event>, g: nat, lay: Layout, t: int, p: int, m: Mark)
    requires ValidLayout(lay) && AllWellFormed(evs) && KeyboardPitches(evs, g) && MinPitch <= p <= MaxPitch
    requires m in ScoreMarks(evs, g, lay) && m.len > 0 && m.row == t && WrapCol(m.col) == p - MinPitch
    ensures StrikesAt(evs, g, lay, t, p)
  {
    MarkOrigin(evs, g, lay, m);
    var k, i :| 0 <= k < |evs| && Encodable(evs[k], g) && 0 <= i < |Pitches(evs[k].kind)| &&
      m == Mark(StartRow(evs[k], g, lay), StepCount(evs[k], g), Pitches(evs[k].kind)[i] - MinPitch);
    assert InVocabulary(Pitches(evs[k].kind)[i]);
  }

  /** A pitch an event starts at step t on the keyboard leaves a mark of the cut starting at t in its column. */
  lemma OnsetMark(evs: seq<Event>, g: nat, lay: Layout, t: int, p: int)
    requires ValidLayout(lay) && AllWellFormed(evs) && MinPitch <= p <= MaxPitch && StrikesAt(evs, g, lay, t, p)
    ensures var ms := ScoreMarks(evs, g, lay);
      exists j :: 0 <= j < |ms| && ms[j].len > 0 && ms[j].row == t && WrapCol(ms[j].col) == p - MinPitch
  {
    var ms := ScoreMarks(evs, g, lay);
    var k, i :| 0 <= k < |evs| && Encodable(evs[k], g) && 0 <= i < |Pitches(evs[k].kind)| &&
      Pitches(evs[k].kind)[i] == p && StartRow(evs[k], g, lay) == t && StepCount(evs[k], g) > 0;
    MarkOfEvent(evs, g, lay, k, i);
    var j :| 0 <= j < |ms| && ms[j] == Mark(t, StepCount(evs[k], g), p - MinPitch);
    assert ms[j].len > 0 && ms[j].row == t && WrapCol(ms[j].col) == p - MinPitch;
  }

  /** In an encoded grid, a pitch's state at step t is 1 exactly when some event starts that pitch at t. */
  lemma OnsetState(evs: seq<Event>, g: nat, lay: Layout, piece: array3<int>, t: int, p: int)
    requires ValidLayout(lay) && AllWellFormed(evs) && KeyboardPitches(evs, g)
    requires piece.Length1 == NoteRange && piece.Length2 == 3 && Grid3Is(piece, ScoreMarks(evs, g, lay))
    requires 0 <= t < piece.Length0 && MinPitch <= p <= MaxPitch
    ensures States(piece)[t][p - MinPitch] == 1 <==> StrikesAt(evs, g, lay, t, p)
  {
    var ms := ScoreMarks(evs, g, lay);
    EncodedStates(piece, ms, t, p - MinPitch);
    if States(piece)[t][p - MinPitch] == 1 {
      var k :| 0 <= k < |ms| && ms[k].len > 0 && ms[k].row == t && WrapCol(ms[k].col) == p - MinPitch;
      OnsetOrigin(evs, g, lay, t, p, ms[k]);
    }
    if StrikesAt(evs, g, lay, t, p) {
      OnsetMark(evs, g, lay, t, p);
    }
  }

  /**
    Encoding then decoding: step t of the decoded track strikes pitch p
    (a NoteOn) exactly when some event of the cut starts pitch p at step t.
   */
  lemma EncodeDecodeOnsets(evs: seq<Event>, g: nat, lay: Layout, piece: array3<int>, t: int, p: int)
    requires ValidLayout(lay) && AllWellFormed(evs) && KeyboardPitches(evs, g)
    requires piece.Length1 == NoteRange && piece.Length2 == 3 && Grid3Is(piece, ScoreMarks(evs, g, lay))
    requires 0 <= t < piece.Length0
    ensures StateMatrix(States(piece))
    ensures HasCommand(StepOf(States(piece), t), true, p) <==> StrikesAt(evs, g, lay, t, p)
  {
    StepMeaning(States(piece), t, p);
    if MinPitch <= p <= MaxPitch {
      OnsetState(evs, g, lay, piece, t, p);
    }
  }

  /** In an encoded grid, a pitch's state at step t is nonzero exactly when some event holds that pitch at t. */
  lemma HeldState(evs: seq<Event>, g: nat, lay: Layout, piece: array3<int>, t: int, p: int)
    requires ValidLayout(lay) && AllWellFormed(evs) && KeyboardPitches(evs, g)
    requires piece.Length1 == NoteRange && piece.Length2 == 3 && Grid3Is(piece, ScoreMarks(evs, g, lay))
    requires 0 <= t < piece.Length0 && MinPitch <= p <= MaxPitch
    ensures States(piece)[t][p - MinPitch] != 0 <==> SoundsAt(evs, g, lay, t, p)
  {
    var ms := ScoreMarks(evs, g, lay);
    EncodedStates(piece, ms, t, p - MinPitch);
    CellCovered(ms, t, p - MinPitch);
    if SoundsAt(evs, g, lay, t, p) {
      SoundingCell(evs, g, lay, t, p);
    }
    if Cell(ms, t, p - MinPitch) != 0 {
      CellSounds(evs, g, lay, t, p);
    }
  }

  /**
    Encoding then decoding: step t of the decoded track releases pitch p
    (a NoteOff) exactly when some event held p at step t - 1 and at t
    either no event holds p or one strikes it again.
   */
  lemma EncodeDecodeOffsets(evs: seq<Event>, g: nat, lay: Layout, piece: array3<int>, t: int, p: int)
    requires ValidLayout(lay) && AllWellFormed(evs) && KeyboardPitches(evs, g)
    requires piece.Length1 == NoteRange && piece.Length2 == 3 && Grid3Is(piece, ScoreMarks(evs, g, lay))
    requires 0 <= t < piece.Length0
    ensures StateMatrix(States(piece))
    ensures HasCommand(StepOf(States(piece), t), false, p) <==>
      MinPitch <= p <= MaxPitch && t > 0 && SoundsAt(evs, g, lay, t - 1, p) &&
      (!SoundsAt(evs, g, lay, t, p) || StrikesAt(evs, g, lay, t, p))
  {
    var states := States(piece);
    StepMeaning(states, t, p);
    if MinPitch <= p <= MaxPitch {
      var c := p - MinPitch;
      HeldState(evs, g, lay, piece, t, p);
      OnsetState(evs, g, lay, piece, t, p);
      if t > 0 {
        assert PrevState(states, t) == states[t - 1];
        HeldState(evs, g, lay, piece, t - 1, p);
      } else {
        assert PrevState(states, t)[c] == 0;
      }
    }
  }

  // ---------------------------------------------------------------------
  // Notes left sounding at the end of the track

  /** Some NoteOn or NoteOff for pitch p occurs among the events. */
  predicate Mentions(evs: seq<MidiEvent>, p: int) {
    exists i :: 0 <= i < |evs| && !evs[i].EndOfTrack? && evs[i].pitch == p
  }

  /** The last NoteOn/NoteOff for pitch p is a NoteOn: p is still sounding after the events. */
  predicate Sounding(evs: seq<MidiEvent>, p: int) {
    if evs == [] then false
    else
      var e := evs[|evs| - 1];
      if !e.EndOfTrack? && e.pitch == p then e.NoteOn? else Sounding(evs[..|evs| - 1], p)
  }

  lemma {:induction false} SoundingAppend(a: seq<MidiEvent>, b: seq<MidiEvent>, p: int)
    ensures Sounding(a + b, p) == if Mentions(b, p) then Sounding(b, p) else Sounding(a, p)
    decreases |b|
  {
    if b == [] {
      assert a + b == a;
    } else {
      var n := |b| - 1;
      assert (a + b)[..|a + b| - 1] == a + b[..n];
      SoundingAppend(a, b[..n], p);
      if !(!b[n].EndOfTrack? && b[n].pitch == p) {
        if Mentions(b, p) {
          var i :| 0 <= i < |b| && !b[i].EndOfTrack? && b[i].pitch == p;
          assert b[..n][i] == b[i];
        }
        if Mentions(b[..n], p) {
          var i :| 0 <= i < n && !b[..n][i].EndOfTrack? && b[..n][i].pitch == p;
          assert b[i] == b[..n][i];
        }
      }
    }
  }

  /** After NoteOffs only, no pitch is sounding. */
  lemma {:induction false} SoundingOffs(evs: seq<MidiEvent>, p: int)
    requires forall i :: 0 <= i < |evs| ==> evs[i].NoteOff?
    ensures !Sounding(evs, p)
  {
    if evs != [] {
      SoundingOffs(evs[..|evs| - 1], p);
    }
  }

  /** After NoteOns only, exactly the pitches mentioned are sounding. */
  lemma {:induction false} SoundingOns(evs: seq<MidiEvent>, p: int)
    requires forall i :: 0 <= i < |evs| ==> evs[i].NoteOn?
    ensures Sounding(evs, p) == Mentions(evs, p)
  {
    if evs != [] {
      var n := |evs| - 1;
      SoundingOns(evs[..n], p);
      if Mentions(evs, p) && evs[n].pitch != p {
        var i :| 0 <= i < |evs| && !evs[i].EndOfTrack? && evs[i].pitch == p;
        assert evs[..n][i] == evs[i];
      }
      if Mentions(evs[..n], p) {
        var i :| 0 <= i < n && !evs[..n][i].EndOfTrack? && evs[..n][i].pitch == p;
        assert evs[i] == evs[..n][i];
      }
    }
  }

  /** A step's events mention p exactly when the step releases or strikes it. */
  lemma StepMentions(offs: seq<int>, ons: seq<int>, t: nat, last: nat, p: int)
    requires last <= t
    ensures Mentions(StepEvents(offs, ons, t, last), p) <==> (p - MinPitch) in offs || (p - MinPitch) in ons
  {
    var ev := StepEvents(offs, ons, t, last);
    if (p - MinPitch) in offs {
      var j :| 0 <= j < |offs| && offs[j] == p - MinPitch;
      assert ev[j].pitch == p;
    }
    if (p - MinPitch) in ons {
      var j :| 0 <= j < |ons| && ons[j] == p - MinPitch;
      assert ev[|offs| + j].pitch == p;
    }
    if Mentions(ev, p) {
      var j :| 0 <= j < |ev| && !ev[j].EndOfTrack? && ev[j].pitch == p;
      if j < |offs| {
        assert offs[j] == p - MinPitch;
      } else {
        assert ons[j - |offs|] == p - MinPitch;
      }
    }
  }

  /** After one step, p is sounding exactly when the step struck it. */
  lemma StepSounding(offs: seq<int>, ons: seq<int>, t: nat, last: nat, p: int)
    requires last <= t
    ensures Sounding(StepEvents(offs, ons, t, last), p) <==> (p - MinPitch) in ons
  {
    var ev := StepEvents(offs, ons, t, last);
    var a, b := ev[..|offs|], ev[|offs|..];
    assert ev == a + b;
    SoundingAppend(a, b, p);
    SoundingOffs(a, p);
    SoundingOns(b, p);
    if (p - MinPitch) in ons {
      var j :| 0 <= j < |ons| && ons[j] == p - MinPitch;
      assert b[j].pitch == p;
    }
    if Mentions(b, p) {
      var j :| 0 <= j < |b| && !b[j].EndOfTrack? && b[j].pitch == p;
      assert ons[j] == p - MinPitch;
    }
  }

  /** A column struck in this step, or held before and not released, is held (state 1 or 2) now. */
  lemma HeldAfterStep(prev: seq<int>, cur: seq<int>, c: int)
    requires |prev| == |cur| && forall k :: 0 <= k < |cur| ==> 0 <= cur[k] <= 2
    requires c in OnCols(prev, cur) || (0 <= c < |prev| && 1 <= prev[c] <= 2 && c !in OffCols(prev, cur))
    ensures 0 <= c < |cur| && 1 <= cur[c] <= 2
  {
  }

  /** One step of the decoder keeps "sounding implies held": p sounds after the step only if the new row holds it. */
  lemma SoundingAfterStep(before: seq<MidiEvent>, prev: seq<int>, cur: seq<int>, t: nat, last: nat, p: int)
    requires |prev| == |cur| == NoteRange && last <= t
    requires forall k :: 0 <= k < |cur| ==> 0 <= cur[k] <= 2
    requires Sounding(before, p) ==> MinPitch <= p <= MaxPitch && 1 <= prev[p - MinPitch] <= 2
    ensures Sounding(before + StepEvents(OffCols(prev, cur), OnCols(prev, cur), t, last), p) ==>
      MinPitch <= p <= MaxPitch && 1 <= cur[p - MinPitch] <= 2
  {
    var offs, ons := OffCols(prev, cur), OnCols(prev, cur);
    var ev := StepEvents(offs, ons, t, last);
    StepSounding(offs, ons, t, last, p);
    StepMentions(offs, ons, t, last, p);
    SoundingAppend(before, ev, p);
    if Sounding(before + ev, p) {
      HeldAfterStep(prev, cur, p - MinPitch);
    }
  }

  /** A pitch left sounding after n steps is held (state 1 or 2) in step n - 1. */
  lemma {:induction false} SoundingIsHeld(states: seq<seq<int>>, n: nat, p: int)
    requires StateMatrix(states) && n <= |states|
    ensures Sounding(Run(states, n).events, p) ==>
      n > 0 && MinPitch <= p <= MaxPitch && 1 <= states[n - 1][p - MinPitch] <= 2
  {
    if n == 0 {
      assert Run(states, 0).events == [];
    } else {
      SoundingIsHeld(states, n - 1, p);
      var pre := Run(states, n - 1);
      var prev, cur := PrevState(states, n - 1), states[n - 1];
      assert Run(states, n).events == pre.events + StepEvents(OffCols(prev, cur), OnCols(prev, cur), n - 1, pre.last);
      if n == 1 {
        assert pre.events == [];
      } else {
        assert prev == states[n - 2];
      }
      SoundingAfterStep(pre.events, prev, cur, n - 1, pre.last, p);
    }
  }

  /** From silence nothing is released. */
  lemma NothingReleased(prev: seq<int>, cur: seq<int>)
    requires |prev| == |cur|
    requires forall c :: 0 <= c < |prev| ==> prev[c] == 0
    ensures OffCols(prev, cur) == []
  {
    var offs := OffCols(prev, cur);
  }

  /** A row whose only state 1 is in column c0 strikes c0 alone. */
  lemma SingleStrike(prev: seq<int>, cur: seq<int>, c0: int)
    requires |prev| == |cur| && 0 <= c0 < |cur|
    requires forall c :: 0 <= c < |prev| ==> prev[c] == 0
    requires forall c :: 0 <= c < |cur| ==> cur[c] == if c == c0 then 1 else 0
    ensures OnCols(prev, cur) == [c0]
  {
    IncreasingSingleton(OnCols(prev, cur), c0);
  }

  /** A strictly increasing sequence whose only member is x is [x]. */
  lemma IncreasingSingleton(cs: seq<int>, x: int)
    requires forall c :: c in cs <==> c == x
    requires forall i, j :: 0 <= i < j < |cs| ==> cs[i] < cs[j]
    ensures cs == [x]
  {
    assert x in cs;
    assert cs[0] in cs && cs[|cs| - 1] in cs;
  }

  lemma StrikeFirstColumn()
    ensures OffCols(Silence(), Silence()[0 := 1]) == []
    ensures OnCols(Silence(), Silence()[0 := 1]) == [0]
  {
    NothingReleased(Silence(), Silence()[0 := 1]);
    SingleStrike(Silence(), Silence()[0 := 1], 0);
  }

  /**
    As written, a note still held on the last row of the matrix is never
    released: a single step holding A0 decodes to a NoteOn for 21 and no
    NoteOff before the end of the track.
   */
  lemma LastRowLeftSounding()
    ensures StateMatrix([Silence()[0 := 1]])
    ensures Track([Silence()[0 := 1]]) == [NoteOn(0, Velocity, MinPitch), EndOfTrack(1)]
    ensures Sounding(Track([Silence()[0 := 1]]), MinPitch)
  {
    var states := [Silence()[0 := 1]];
    assert StateMatrix(states);
    StrikeFirstColumn();
    assert PrevState(states, 0) == Silence();
    assert StepEvents([], [0], 0, 0) == [NoteOn(0, Velocity, MinPitch)];
    assert Run(states, 0) == RunState([], 0);
    assert Run(states, 1).events == [NoteOn(0, Velocity, MinPitch)];
    var track := Track(states);
    assert track[..|track| - 1] == [NoteOn(0, Velocity, MinPitch)];
  }

  /**
    The evidently intended decoder: the matrix followed by one all-zero
    step, which releases every note still held at the end.
   */
  function ClosedTrack(states: seq<seq<int>>): (track: seq<MidiEvent>)
    requires StateMatrix(states)
    ensures StateMatrix(states + [Silence()])
  {
    Track(states + [Silence()])
  }

  /** With the closing all-zero step, no pitch is left sounding at the end of the track. */
  lemma ClosedTrackReleasesAll(states: seq<seq<int>>, p: int)
    requires StateMatrix(states)
    ensures !Sounding(ClosedTrack(states), p)
  {
    var closed := states + [Silence()];
    assert StateMatrix(closed);
    SoundingIsHeld(closed, |closed|, p);
    SoundingAppend(Run(closed, |closed|).events, [EndOfTrack(1)], p);
  }
}
