# Piano-roll dataset pipeline

A model of the data pipeline of a symbolic-music project that turns
MusicXML/MIDI scores into binary piano rolls for training sequence models,
and reads rolls back into scores.

- `Music` — the data model: a score as a sequence of events (note, chord,
  rest) with measure number, offset and duration in quarter notes; time
  signatures; the grid step of 4/G quarter notes; the divisibility test
  `quarterLength % (4.0 / GRANULARITY) == 0`, stated exactly.
- `NoteNames` — `midi_to_note`, present in every script: note letter from
  `midi % 12`, octave from `int((midi - 12) / 12)`, and the reading of a
  name back into a MIDI number.
- `PianoRoll` — the binary roll shared by `encode_score` / `decode_score`
  of task_1/create_dataset.py and task_1/encode_dataset.py: every encodable
  note or chord leaves one run of ones per pitch (a "mark"), written in
  place into a `(rows x 88)` array, with numpy's negative column rule and
  IndexError as a failed write; the decoder reads measure i from rows
  `int(i * spm) .. int((i + 1) * spm) - 1`, one Rest or Chord per row.
- `OnsetRoll` — task_6/encode_dataset.py: the three-channel roll (channel 1
  onset, channel 2 sustain), `np.argmax` into a state matrix, and the loop
  that turns state transitions into NoteOn/NoteOff events with ticks.
- `Cutting` — `get_cut_score_nummeasures` and `get_cut_score_numsteps`
  (identical in task_1 and task_6 create_dataset.py): the windows of whole
  measures a score is cut into, segment by time signature.
- `ScoreStats` — `get_score_stats` of task_1 and task_6 create_dataset.py
  (the two are the same function): pitch bounds, granularity, divisibility
  counts, signature sets, with the score cache.
- `Augment` — `augment_score_keys`: the score and its ten transpositions by
  ±1 .. ±5 semitones.
- `Pruning` — the `pruning_stats` table as a class and `prune_dataset` of
  task_1/create_dataset.py: which filter discards which score.
- `SplitDataset` — task_1/split_dataset.py: `valid_score` and the loop that
  deals cuts into train/valid/test, keeping cuts of one original together.
- `XmlParser` — `encode_score` / `decode_score` of xml_parser.py: two-part
  scores, fixed windows of 32 measures in 3/4, pitches off the keyboard
  skipped, notes shorter than a step skipped.
- `XmlPruning` — `get_score_stats` (with `int(1 / ql)` granularity and the
  power-of-two bit test) and `prune_dataset` of xml_parser.py.
- `EncodeDataset` — task_1/encode_dataset.py: `encode_score` with a cut of
  `num_measures` measures in `steps_per_cut` rows, and `decode_score` in its
  image and plain branches; also the length-checked `decode_score` of
  task_1/create_dataset.py.

Python's `int()` on floats (truncation toward zero), `%` on integers,
`int(a / b)` and `&` are written out explicitly. Durations and offsets are
exact rationals (`real`).

## Model

| member | source | states |
|---|---|---|
| Music.StepLength | task_1/create_dataset.py:162 | a grid step, 4/G quarter notes, is positive |
| Music.DivisibleIsWholeSteps | task_1/create_dataset.py:140 | the encoder's `ql % (4/G) == 0` test holds exactly when the duration is its whole step count times the step length |
| Music.WholeStepsAreDivisible | task_1/create_dataset.py:140 | any whole number k of steps passes the test and spans exactly k rows |
| NoteNames.MidiToNoteRoundTrip | task_1/create_dataset.py:77-83 | from MIDI 12 up (the whole keyboard), the name midi_to_note writes reads back as the same MIDI number |
| NoteNames.MidiToNoteOfC8 | task_1/create_dataset.py:82 | midi_to_note(108) is "C8", the script's own assertion |
| NoteNames.MidiToNoteOfA0 | task_1/create_dataset.py:83 | midi_to_note(21) is "A0", the script's own assertion |
| NoteNames.MidiToNoteCollides | task_1/create_dataset.py:78 | truncation gives MIDI 1 and MIDI 13 the same name "C#0", which reads back as 13 |
| NoteNames.MidiToNoteFloorRoundTrip | task_1/create_dataset.py:77-80 | with the octave rounded down, every MIDI number's name reads back as itself |
| NoteNames.MidiToNoteFloorInjective | task_1/create_dataset.py:77-80 | with the octave rounded down, distinct pitches get distinct names |
| NoteNames.MidiToNoteAgreesAboveTwelve | task_1/create_dataset.py:78 | the written and the rounded-down octave rules agree from MIDI 12 up |
| NoteNames.IntRoundTrip | task_1/create_dataset.py:80 | `str(octave)` reads back as the octave, negative ones included |
| NoteNames.NameRoundTrip | task_1/create_dataset.py:79-80 | a note letter followed by an octave string denotes 12 * (octave + 1) + pitch class |
| PianoRoll.CellCovered | task_1/create_dataset.py:146-147 | after writing the marks a cell is 1 exactly when some mark covers it, else 0 |
| PianoRoll.ScoreMarksMember | task_1/create_dataset.py:139-147 | a run is written for the cut exactly when it is written for one of its events |
| PianoRoll.PaintRun | task_1/create_dataset.py:146-147 | writing one pitch's run succeeds exactly when numpy raises no IndexError, and the grid then holds one more mark |
| PianoRoll.PaintEvent | task_1/create_dataset.py:141-147 | one event's pitches are written in order; on failure some run of the event does not fit |
| PianoRoll.Encode | task_1/create_dataset.py:137-148 | a fresh zero grid of the given rows x 88 (create_dataset.py fixes rows and layout, see EncodeDataset.CreateEncodeScore) holding exactly the cells of every encodable event, or failure exactly when some run does not fit |
| PianoRoll.NonzeroCols | task_1/create_dataset.py:160 | np.nonzero on a row: exactly the nonzero columns, in increasing order |
| PianoRoll.ColumnNames | task_1/create_dataset.py:164 | each name written for a nonzero column reads back as that column + 21 |
| PianoRoll.DecodeRowsMeaning | task_1/create_dataset.py:160-166 | every step decoded from a row range lasts 4/G and is a Rest exactly when its row is all zero |
| PianoRoll.DecodeStepMeaning | task_1/create_dataset.py:160-166 | a row decodes to a Rest exactly when it is all zero, always of length 4/G, and its chord sounds exactly the nonzero columns + 21 |
| PianoRoll.RowPitch | task_1/create_dataset.py:160-166 | pitch p is in a decoded row exactly when column p - 21 is nonzero |
| PianoRoll.MeasureBounds | task_1/create_dataset.py:156-157 | measure i's rows `int(i*spm) .. int((i+1)*spm)` are ordered and inside the roll |
| PianoRoll.Decode | task_1/create_dataset.py:154-169 | the decoding loop yields the measures of the decoder's specification |
| PianoRoll.DecodeSpecShape | task_1/create_dataset.py:155-168 | the decoded score has nm measures; measure i has one step per row of its range, each a 4/G step, a Rest exactly on a silent row |
| PianoRoll.MarkOrigin | task_1/create_dataset.py:139-147 | every run in the roll comes from one pitch of one encodable event, at its start row and step count |
| PianoRoll.MarkOfEvent | task_1/create_dataset.py:139-147 | every pitch of every encodable event leaves its run |
| PianoRoll.CellSounds | task_1/create_dataset.py:137-148 | a set cell of a keyboard-range roll is held by some encodable event at that step |
| PianoRoll.SoundingCell | task_1/create_dataset.py:137-148 | a pitch an encodable event holds at a step sets its cell |
| PianoRoll.EncodeDecodeRow | task_1/create_dataset.py:137-169 | decoding an encoded row gives exactly the pitches the score's events hold at that step |
| PianoRoll.EncodeDecodeRest | task_1/create_dataset.py:160-162 | an encoded row decodes to a Rest exactly when no event sounds at that step |
| PianoRoll.GridRows | task_1/create_dataset.py:147 | the row read from an encoded array is the row the marks describe |
| OnsetRoll.Cell3Covered | task_6/encode_dataset.py:72-76 | a channel is 1 exactly when some run covers it there; channel 0 stays 0 |
| OnsetRoll.PaintRun3 | task_6/encode_dataset.py:72-76 | one run writes its onset on channel 1 of its first row and sustain on channel 2 of the others; fails exactly on IndexError |
| OnsetRoll.PaintEvent3 | task_6/encode_dataset.py:67-76 | one event's runs are written in order; on failure some run does not fit |
| OnsetRoll.EncodeScore | task_6/encode_dataset.py:62-77 | a fresh zero (steps_per_cut x 88 x 3) array holding every encodable event's runs, or failure exactly when one does not fit |
| OnsetRoll.EncodedChannels | task_6/encode_dataset.py:72-76 | channel 1 is set exactly at a run's first row, channel 2 exactly on its later rows |
| OnsetRoll.Argmax3 | task_6/encode_dataset.py:84 | np.argmax over three values: the first index of the largest |
| OnsetRoll.EncodedCellState | task_6/encode_dataset.py:84 | on an encoded cell the state is 1 on any onset, 2 on sustain alone, 0 otherwise |
| OnsetRoll.EncodedStates | task_6/encode_dataset.py:62-84 | the state matrix of an encoded roll is 1 exactly where a run starts and 0 exactly where no run covers |
| OnsetRoll.OffCols | task_6/encode_dataset.py:96-113 | offNotes: exactly the columns that were on (1 or 2) and are now 0 or 1, increasing |
| OnsetRoll.OnCols | task_6/encode_dataset.py:96-113 | onNotes: exactly the columns now in state 1, increasing |
| OnsetRoll.Silence | task_6/encode_dataset.py:92 | the initial prevstate: 88 zeros |
| OnsetRoll.Run | task_6/encode_dataset.py:91-121 | after n steps lastcmdtime is at most n, and below n once a step has run |
| OnsetRoll.RunLast | task_6/encode_dataset.py:91-119 | after n steps lastcmdtime is the last step before n that emitted a NoteOff or NoteOn, or 0 when none did |
| OnsetRoll.LastStep | task_6/encode_dataset.py:114-119 | one step moves lastcmdtime to itself exactly when it emits an event, and leaves it otherwise |
| OnsetRoll.Transitions | task_6/encode_dataset.py:94-113 | the inner loop collects exactly offNotes and onNotes |
| OnsetRoll.EmitStep | task_6/encode_dataset.py:114-119 | appends that step's NoteOffs then NoteOns; lastcmdtime moves to the step only if something was emitted |
| OnsetRoll.DecodeTrack | task_6/encode_dataset.py:79-124 | the decoder's track is the specified track of the argmax state matrix |
| OnsetRoll.StepShape | task_6/encode_dataset.py:114-119 | a step's events: every NoteOff before every NoteOn, only the first carries (t - last) * 55 ticks, NoteOns have velocity 40 |
| OnsetRoll.StepOns | task_6/encode_dataset.py:117-118 | a step has a NoteOn for p exactly when column p - 21 is in onNotes |
| OnsetRoll.StepOffs | task_6/encode_dataset.py:114-115 | a step has a NoteOff for p exactly when column p - 21 is in offNotes |
| OnsetRoll.StepMeaning | task_6/encode_dataset.py:94-121 | step t strikes p exactly when its state is 1, and releases p exactly when it was held and is now 0 or 1 |
| OnsetRoll.RunPitches | task_6/encode_dataset.py:114-119 | every note event of the track is on the keyboard, 21 .. 108 |
| OnsetRoll.RunTicks | task_6/encode_dataset.py:114-119 | the ticks of the events sum to 55 * lastcmdtime |
| OnsetRoll.OnsetOrigin | task_6/encode_dataset.py:67-76 | a run starting at step t in column p - 21 comes from an event striking p at t |
| OnsetRoll.EncodeDecodeOnsets | task_6/encode_dataset.py:62-119 | decoding an encoded roll emits a NoteOn for p at step t exactly when an encodable event strikes p at t |
| OnsetRoll.HeldState | task_6/encode_dataset.py:62-84 | in an encoded roll a pitch's argmax state at step t is nonzero exactly when an encodable event holds it at t |
| OnsetRoll.EncodeDecodeOffsets | task_6/encode_dataset.py:62-119 | decoding an encoded roll emits a NoteOff for p at step t exactly when t > 0, an event held p at t - 1, and at t no event holds p or one strikes it again |
| OnsetRoll.StepSounding | task_6/encode_dataset.py:114-119 | after a step p sounds exactly when struck; it is mentioned when struck or released |
| OnsetRoll.SoundingIsHeld | task_6/encode_dataset.py:93-121 | a pitch left sounding after n steps is held in state 1 or 2 at step n - 1 |
| OnsetRoll.SoundingAfterStep | task_6/encode_dataset.py:96-121 | one step's NoteOffs then NoteOns leave a pitch sounding only when the new row holds it, given that held before meant the previous row held it |
| OnsetRoll.NothingReleased | task_6/encode_dataset.py:96-101 | from silence no column is released |
| OnsetRoll.SingleStrike | task_6/encode_dataset.py:99-101 | from silence a row with one state-1 column strikes that column alone |
| OnsetRoll.StrikeFirstColumn | task_6/encode_dataset.py:99-101 | from silence, a 1 in column 0 releases nothing and strikes column 0 |
| OnsetRoll.LastRowLeftSounding | task_6/encode_dataset.py:93 | a one-step matrix holding A0 gives NoteOn A0 then EndOfTrack: A0 is never released |
| OnsetRoll.ClosedTrack | task_6/encode_dataset.py:93 | the state matrix with one all-zero step appended is still a state matrix |
| OnsetRoll.ClosedTrackReleasesAll | task_6/encode_dataset.py:93-124 | with the closing zero step appended, no pitch is left sounding |
| Cutting.FullCount | task_1/create_dataset.py:110-111 | `score.measures(a, a+m-1)` holds m measures exactly when a .. a+m-1 lies inside the score |
| Cutting.CutByMeasures | task_1/create_dataset.py:107-115 | the loop returns the specified windows |
| Cutting.WindowsShape | task_1/create_dataset.py:107-115 | windows start at start_i, hold m contiguous measures inside the score, and the next window would be short |
| Cutting.WindowsCount | task_1/create_dataset.py:107-115 | the windows cover as many whole groups of m measures as fit |
| Cutting.MeasuresPerCutPositive | task_1/create_dataset.py:128 | a signature whose measure fits in the cut gives at least one measure per cut |
| Cutting.CutBySteps | task_1/create_dataset.py:117-135 | the loop returns the specified cuts, segment by segment |
| Cutting.SegmentCuts | task_1/create_dataset.py:123-134 | the windows of one segment lie inside measures 1 .. total - 1 and inside that segment's signature |
| Cutting.StepCutsShape | task_1/create_dataset.py:117-135 | every cut from measure i on is a good cut |
| Cutting.CutByStepsShape | task_1/create_dataset.py:117-135 | no cut of a score contains its last measure, and each lies in one time-signature segment |
| Cutting.SingleSignatureCuts | task_1/create_dataset.py:117-135 | with one signature, cut i spans measures 1 + i*m .. m + i*m, as many as fit before the last measure |
| Cutting.SingleSignatureRun | task_1/create_dataset.py:123-134 | with one signature, the loop cuts only at the last measure |
| ScoreStats.MinOf | task_1/create_dataset.py:263-264 | min_note is unset exactly for no pitches, else a pitch below or equal to all |
| ScoreStats.MaxOf | task_1/create_dataset.py:265-266 | max_note is unset exactly for no pitches, else a pitch above or equal to all |
| ScoreStats.GranOf | task_1/create_dataset.py:267-270 | granularity is unset exactly when all durations are zero, else the largest 1/(0.25*ql) over nonzero durations |
| ScoreStats.IndivisibleCount | task_1/create_dataset.py:271-273 | the count is at most the events and zero exactly when none is indivisible |
| ScoreStats.BoundsSnoc | task_1/create_dataset.py:263-266 | one more pitch updates the bounds as the loop's comparisons do |
| ScoreStats.PitchesSnoc | task_1/create_dataset.py:261-266 | the pitches of k + 1 events are those of k followed by the pitches of a note or chord, nothing for anything else |
| ScoreStats.DurationsSnoc | task_1/create_dataset.py:267-273 | one more event raises the granularity to its note_gran when that is higher and counts it when it is indivisible; a zero duration changes neither |
| ScoreStats.WidenBounds | task_1/create_dataset.py:263-266 | one pitch lowers the running minimum or raises the running maximum when it lies outside them, or sets them when unset |
| ScoreStats.FoldEventPitches | task_1/create_dataset.py:261-266 | after one more event the bounds are those of all pitches of the events read so far |
| ScoreStats.FoldPitches | task_1/create_dataset.py:262-266 | the inner loop leaves the bounds of all pitches seen |
| ScoreStats.TallyDuration | task_1/create_dataset.py:267-273 | the duration branch updates granularity, the indivisible count and divisible_notes |
| ScoreStats.FoldEvents | task_1/create_dataset.py:253-273 | the loop yields the bounds, granularity and counts of the whole score |
| ScoreStats.GetScoreStats | task_1/create_dataset.py:236-299 | a cached name returns its cached record; otherwise the record of the score, or an error for a score with no events (division by zero) |
| ScoreStats.OnePercentMeaning | task_1/create_dataset.py:283 | `ind / total < 0.01` holds exactly when 100 * ind < total |
| ScoreStats.CountsMeaning | task_1/create_dataset.py:253-297 | the record fails exactly for no events; divisible_notes, 1%+_divisible, %_indivisible, consistent_time/key and consistent_parts mean what their names say |
| ScoreStats.PitchRangeMeaning | task_1/create_dataset.py:253-277 | min_note and max_note are set exactly when some note sounds, are pitches of the score, and bound all of them |
| ScoreStats.PitchesOfEvent | task_1/create_dataset.py:261-262 | every pitch of a note or chord is among the pitches scanned |
| ScoreStats.PitchBounds | task_1/create_dataset.py:259-277 | every pitch of every note and chord lies between min_note and max_note |
| Augment.TransposeKind | task_1/create_dataset.py:311-312 | transposition moves every pitch by d and keeps the kind |
| Augment.Transpose | task_1/create_dataset.py:311-312 | a transposed score keeps every event's timing and moves its pitches by d |
| Augment.AugmentScoreKeys | task_1/create_dataset.py:307-315 | eleven scores: the original, then the transpositions by +1, -1, ..., +5, -5 |
| Augment.TransposeZero | task_1/create_dataset.py:309 | the first augmented score, shift 0, is the score itself |
| Augment.TransposeCompose | task_1/create_dataset.py:311-312 | transposing by d then e is transposing by d + e |
| Augment.TransposeBack | task_1/create_dataset.py:311-312 | each augmented score transposed back is the original |
| Augment.ShiftsDistinct | task_1/create_dataset.py:310-314 | the eleven shifts are distinct and lie in -5 .. 5 |
| Augment.ShiftIndex | task_1/create_dataset.py:310-314 | every shift in -5 .. 5 occurs among the eleven |
| Augment.TransposeRange | task_1/create_dataset.py:311-312 | a transposed score stays on the keyboard exactly when the original lies in the range shifted back by d |
| Pruning.PruningStats.constructor | task_1/create_dataset.py:58-71 | the table starts with one empty set per filter key |
| Pruning.PruningStats.Discard | task_1/create_dataset.py:194-229 | the name is added under every filter that fired, and nothing else changes |
| Pruning.ReasonsMap | task_1/create_dataset.py:194-229 | every name is mapped to the filters whose tests discard it |
| Pruning.PruneDataset | task_1/create_dataset.py:171-234 | returns the names no filter discards, in order, and records every name under every filter that fired |
| Pruning.KeptMeaning | task_1/create_dataset.py:231-232 | a name is kept exactly when it is an input no filter discards |
| Pruning.KeptAppend | task_1/create_dataset.py:188-232 | pruning keeps the input order: a concatenation prunes part by part |
| Pruning.AllClearKeepAll | task_1/create_dataset.py:188-232 | when no filter fires on any name the output is the input |
| Pruning.NoFiltersNoReasons | task_1/create_dataset.py:194-229 | with every filter disabled no test fires on any record |
| Pruning.NoFiltersKeepAll | task_1/create_dataset.py:171-234 | with every filter disabled prune_dataset returns its input |
| Pruning.DiscardAllMeaning | task_1/create_dataset.py:194-229 | the table keeps its keys; a name is under a filter exactly when it was before or that filter discarded it |
| Pruning.CreateKeysSuffice | task_1/create_dataset.py:58-71 | the consistent_parts test never fires, so the table's keys (which lack it) never raise KeyError |
| SplitDataset.SplitCriteria | task_1/split_dataset.py:119-123 | the split asks for 1-4 parts, pitches 21 .. 108, the divisibility test and 192 steps |
| SplitDataset.ValidScore | task_1/split_dataset.py:49-103 | valid_score returns true exactly when some criterion rejects the score, and records it under each |
| SplitDataset.NumStepsMeaning | task_1/split_dataset.py:93-101 | with one time signature, num_steps rejects exactly a score whose measures do not span the required steps |
| SplitDataset.FirstDash | task_1/split_dataset.py:128 | `score_name.index('-')`: the first dash |
| SplitDataset.SplitReasonsMap | task_1/split_dataset.py:49-103 | every name is mapped to the criteria that reject it |
| SplitDataset.SplitOne | task_1/split_dataset.py:118-145 | one loop turn deals the name only when valid_score returned true and it has a dash |
| SplitDataset.Split | task_1/split_dataset.py:112-145 | the loop yields the specified train/valid/test sets and records every rejection |
| SplitDataset.DealValid | task_1/split_dataset.py:128-145 | one deal keeps the three splits and their original sets disjoint, each cut in its original's split |
| SplitDataset.SplitSpecValid | task_1/split_dataset.py:112-145 | after the loop the splits are disjoint, originals are in one split only, and every cut is in its original's split |
| SplitDataset.SameOriginalSameSplit | task_1/split_dataset.py:125-145 | two placed cuts of the same original are in the same split |
| SplitDataset.DealPlaces | task_1/split_dataset.py:128-145 | a deal places exactly the dealt name |
| SplitDataset.SplitSpecPlaced | task_1/split_dataset.py:118-127 | a name ends in some split exactly when it is an input that valid_score returned true for and that has a dash |
| SplitDataset.EligibleMeaning | task_1/split_dataset.py:118-123 | a score the split means to keep: 1-4 parts, pitches 21 .. 108, fewer than 1% indivisible notes, one time signature spanning 192 steps |
| SplitDataset.EligiblePlacedAsWritten | task_1/split_dataset.py:81-83 | every eligible cut is still placed, since its inverted divisibility test makes valid_score return true |
| SplitDataset.FivePartScorePlaced | task_1/split_dataset.py:118-127 | a five-part score is placed although it is not eligible |
| XmlParser.XmlLayout | xml_parser.py:96-97 | 32 measures of int(G * beatCount * beatQL / 4) rows each form a valid layout |
| XmlParser.XmlStartRow | xml_parser.py:96-98 | the start row is ((measure - 1) % M) * int(G * bc * bql / 4) + int(offset * G / 4) |
| XmlParser.PitchMarksMeaning | xml_parser.py:104-106 | a pitch gets a run exactly when it is on the keyboard; every run lies in a column 0 .. 87 |
| XmlParser.PaintPitches | xml_parser.py:104-111 | the in-range pitches are written in order; failure exactly when a run does not fit |
| XmlParser.PaintXmlEvent | xml_parser.py:90-111 | one kept note or chord is written; failure exactly when one of its runs does not fit |
| XmlParser.EncodeWindow | xml_parser.py:86-111 | a fresh zero grid holding exactly the runs of the window's kept events, or failure exactly when one does not fit |
| XmlParser.EncodeCut | xml_parser.py:82-112 | a window's roll, or an error only when its signatures fail the assertion or a run does not fit |
| XmlParser.EncodeScore | xml_parser.py:74-116 | an error exactly when the score does not have two parts; otherwise one roll per full window of 32 measures, or an error from some window that does not encode |
| XmlParser.ShortEventsSkipped | xml_parser.py:91-92 | rests and notes shorter than one step leave nothing |
| XmlParser.DottedSixteenthTruncated | xml_parser.py:99 | a dotted sixteenth is written as one step, where the other encoders skip it |
| XmlParser.XmlWindows | xml_parser.py:78-81 | window k spans measures k*32 + 1 .. k*32 + 32, as many as fit in the score |
| XmlParser.DecodeScore | xml_parser.py:118-139 | decoding succeeds exactly when the roll has 32 * G * bc * bql / 4 rows, and yields the decoder's specification |
| XmlPruning.PowerTestMeaning | xml_parser.py:230 | `n != 0 and n & (n - 1) == 0` holds exactly for the positive powers of two |
| XmlPruning.XmlNoteGranMeaning | xml_parser.py:227 | int(1 / ql) is the floor of the create_dataset granularity over 4; it is 0 exactly for notes longer than a quarter, which fail the test |
| XmlPruning.XmlGranOf | xml_parser.py:226-229 | granularity is unset exactly when all durations are zero, else the largest int(1 / ql) |
| XmlPruning.Power2Of | xml_parser.py:230-231 | power_2_notes holds exactly when every nonzero duration passes the bit test |
| XmlPruning.XmlDurationsSnoc | xml_parser.py:226-231 | one more event raises the granularity to its int(1 / quarterLength) when that is higher and clears the power-of-two flag unless that value is a power of two; a zero duration changes neither |
| XmlPruning.TallyXmlDuration | xml_parser.py:226-231 | the duration branch updates granularity and power_2_notes |
| XmlPruning.GetXmlScoreStats | xml_parser.py:203-244 | a cached name returns its record; otherwise the record of the score |
| XmlPruning.XmlStatsMeaning | xml_parser.py:215-242 | power_2_notes means every nonzero duration's int(1/ql) is a positive power of two; consistent_time/key mean one signature |
| XmlPruning.HalfNoteFailsPowerTest | xml_parser.py:227-231 | a score with a half note gets granularity 0 and fails power_2_notes |
| XmlPruning.XmlReasonsMap | xml_parser.py:164-196 | every name is mapped to the filters whose tests discard it |
| XmlPruning.PruneXml | xml_parser.py:141-201 | returns the names no filter discards, in order, and records each under every filter that fired |
| XmlPruning.XmlKeysSuffice | xml_parser.py:27-39 | only filters the table has keys for ever fire, so no KeyError |
| XmlPruning.PruneXmlMeaning | xml_parser.py:158-199 | a name is kept exactly when it is an input on which no test fires |
| XmlPruning.IntendedRangeMeaning | xml_parser.py:179 | the intended range test fires exactly when some pitch lies outside the range |
| XmlPruning.RangeTestInverted | xml_parser.py:179 | the test as written fires exactly when the intended one does not |
| XmlPruning.InRangeScoreDiscarded | xml_parser.py:179-181 | a score inside [21, 108] is discarded by the note-range test |
| EncodeDataset.CutLayout | task_1/encode_dataset.py:66 | steps_per_cut / num_measures rows per measure form a valid layout |
| EncodeDataset.EncodeScore | task_1/encode_dataset.py:61-79 | a fresh zero (steps_per_cut x 88) grid with every encodable event's runs, or failure exactly when one does not fit |
| EncodeDataset.BelowRangeWraps | task_1/encode_dataset.py:74-78 | pitch 20 writes the C8 column, which decodes as C8 though no event holds it |
| EncodeDataset.EncodeDecodeRoundTrip | task_1/encode_dataset.py:61-103 | decoded measure i, step k holds pitch p exactly when an event holds p at row int(i * spm) + k |
| EncodeDataset.FlatDecodeMeaning | task_1/encode_dataset.py:93-100 | the plain branch decodes a row exactly when one key is down, then as the image branch does, never as a rest |
| EncodeDataset.FlatDecodeSilentFails | task_1/encode_dataset.py:94-96 | a silent row fails in the plain branch and is a Rest in the image branch |
| EncodeDataset.FlatDecodeChordFails | task_1/encode_dataset.py:94-99 | a two-note row fails in the plain branch and is the chord in the image branch |
| EncodeDataset.DecodeMeasureFlat | task_1/encode_dataset.py:90-100 | one measure in the plain branch succeeds exactly when each of its rows has one key down |
| EncodeDataset.DecodeNextMeasure | task_1/encode_dataset.py:87-100 | measure i of the plain branch spans rows int(i * spm) .. int((i + 1) * spm) - 1 inside the roll, succeeds exactly when each of those rows has one key down, and then equals measure i of the decoder's specification |
| EncodeDataset.DecodeFlat | task_1/encode_dataset.py:84-103 | the plain branch succeeds exactly when every row has one key down, then yields the decoder's specification |
| EncodeDataset.DecodeScore | task_1/encode_dataset.py:81-103 | the image branch always yields the specification; the plain branch exactly when every row has one key down |
| EncodeDataset.CreateDecodeScore | task_1/create_dataset.py:150-169 | fails exactly when the roll's length is not MEASURES_PER_CUT * STEPS_PER_MEASURE, else yields the specification |
| EncodeDataset.CreateRows | task_1/create_dataset.py:138 | int(MEASURES_PER_CUT * STEPS_PER_MEASURE) is the whole number of rows at or just below that product |
| EncodeDataset.CreateEncodeScore | task_1/create_dataset.py:137-148 | a fresh roll of int(MEASURES_PER_CUT * STEPS_PER_MEASURE) x 88 laid out in MEASURES_PER_CUT measures of STEPS_PER_MEASURE rows, holding exactly the cells of every encodable event, or failure exactly when a run does not fit |
| EncodeDataset.CreateEncodeDecode | task_1/create_dataset.py:137-151 | the roll encode_score allocates passes decode_score's length assert exactly when MEASURES_PER_CUT * STEPS_PER_MEASURE is a whole number (and no run raised IndexError), and then decodes to MEASURES_PER_CUT measures |

## Left out

- Parsing, `score.measures`, `recurse`, `flattenParts`, `transpose` and writing files are music21 calls; the model takes the parsed score as a sequence of events (with measure numbers, offsets, durations) and a per-measure list of time signatures.
- `has_pickup` and `consistent_measures` are inputs of the parsed score: they read music21's measure objects and offset maps.
- The MIDI pattern objects and `midi.write_midifile`: the decoder's track is a sequence of NoteOn/NoteOff/EndOfTrack values; `score.show()` and `print` are left out.
- `random.randint(0, 9)` in the split loop is an input sequence of draws, one per name.
- Time signatures are parsed from ratio strings by music21 in valid_score; the split takes that parsing as a function parameter.
- Floating point: durations, offsets and steps per measure are exact rationals, so rounding of binary floats is not modelled.
- Comparisons of an unset statistic (None) with a number raise TypeError in the pruning tests; the model requires the compared statistics to be set.
- The `has_key_signature` parameter of prune_dataset and valid_score is accepted by the source and never read.
- The image mode of task_1/encode_dataset.py's encode_score writes the same cells into a trailing axis of length 1; the model drops that axis.
- `STEPS_PER_MEASURE` and `TIME_SIGNATURE` are used but never defined in task_1/create_dataset.py; they are parameters of the model.
- The top-level script code (loading pickles, corpus loops, plotting, cumulative statistics) and the files data_statistics.py, task_1/model.py, task_1/rnn_model.py and midi_scraper.py are not part of this model.
- The score cache `score_to_stats` is a map parameter of get_score_stats rather than a global.
- CutBySteps: requires every declared signature to span more than zero and at most steps_per_cut steps, and measure 1 to declare one; otherwise the source divides by zero or asks for cuts of zero measures, and its `TimeSignatureException` handler is not modelled.

## Findings

| source | as written | input that shows it | evidently intended | confidence | as-written member | corrected member |
|---|---|---|---|---|---|---|
| task_1/create_dataset.py:78 | the octave is `int((midi - 12) / 12)`, truncating toward zero | MIDI 1 and MIDI 13 both become "C#0" | the octave `midi // 12 - 1`, so each pitch has its own name | not executed | NoteNames.MidiToNoteCollides | NoteNames.MidiToNoteFloorRoundTrip |
| task_1/encode_dataset.py:94 | the plain branch takes `np.nonzero(row)` without `[0]`, a 1-tuple, so no Rest is made and `int()` fails on any row without exactly one key down | an all-zero row, or a row with columns 39 and 43 | the same columns as the image branch: a Rest for a silent row, the chord otherwise | not executed | EncodeDataset.FlatDecodeChordFails | PianoRoll.DecodeStepMeaning |
| task_6/encode_dataset.py:93 | `statematrix + [prevstate[:]]` broadcast-adds zeros to the numpy matrix instead of appending a silent step | a one-step matrix holding A0: NoteOn A0 and no NoteOff | a closing all-zero step that releases every held note | not executed | OnsetRoll.LastRowLeftSounding | OnsetRoll.ClosedTrackReleasesAll |
| task_1/split_dataset.py:119-124 | the loop skips names for which valid_score returns false, but valid_score returns true when it DISCARDS the name; its divisibility test is also the opposite of prune_dataset's | a five-part score with a dashed name is placed in a split | place exactly the scores no criterion rejects | not executed | SplitDataset.FivePartScorePlaced | SplitDataset.EligibleMeaning |
| xml_parser.py:179 | the note-range test discards a score whose notes all lie INSIDE the range | a chord of 60 and 72 with range [21, 108] is discarded | discard a score with some note outside the range, as task_1/create_dataset.py:209 does | not executed | XmlPruning.InRangeScoreDiscarded | XmlPruning.IntendedRangeMeaning |
