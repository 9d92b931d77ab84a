# Qubit touch controller: a verified model

This project models the core of the firmware of a capacitive touch
instrument whose sensors form a closed ring of 24 pads (four boards of six
sensors). It has two parts.

- **The touch engine of `qtouch.h`** (modules `Constants`, `TouchSpec`,
  `QTouch`). Each sensor is a `Pad`. A pad keeps a four-slot history of raw
  readings with a write cursor and the un-divided sum of that history. It
  also stores the signed difference against its ring neighbour. A
  `TouchPoint` is one polyphony slot: a location, an intensity, an updated
  flag, a touched flag and a note callback. `QubitTouch` owns the 24 pads and
  the 4 slots. Once per tick, `seek_and_update_touch_point` does three things:
  1. It scans the ring for strict local maxima above the touch threshold,
     keeping at most four.
  2. It takes the weighted centroid of a seven-pad window around each peak.
  3. For each candidate it updates the first slot close enough, or else takes
     the first free slot. Then it sweeps the slots at the end of the tick.

  `lighten_leds` reports the touched slots. The classes are imperative
  Dafny: a `class` per C++ class, and a `method` with `modifies` per member
  function. Each method is proved against the value-level functions of
  `TouchSpec`. The lemmas there state the properties of the peak scan, the
  centroid, matching, the sweep and the LED report.
- **The frame and byte builders of `peripheral.cpp`** (modules `I2c`, `Ada88`,
  `Mbr3110`, `Pca9544`, `Pca9685`):
  - the 17-byte frames of the ADA88 8×8 LED matrix: letters, numbers, 16-bit
    words, five-parameter gauges and the scrolling animation;
  - the sensitivity bytes of the CY8CMBR3110 sensor chips;
  - the control byte of the PCA9544A I2C multiplexer;
  - the PWM register writes of the PCA9685 LED driver.

  The bus function `write_i2cDevice` is an `I2cBus` object. It records every
  write it is given in `log` and answers each one with the next status of a
  script (`replies`; 0 is success, as `Wire.endTransmission` reports it).

Both note callbacks (`std::function`) are sink objects that record what they
are called with. `MidiSink` keeps a sequence of `(status, note, velocity)`
events and `LedSink` a sequence of `(location, intensity)` calls.

## Model

| member | source | states |
|---|---|---|
| TouchSpec.ToInt16 | qtouch.h:56-58 | storing into an `int16_t` keeps the value modulo 2^16 in the signed range, and keeps any value already in range |
| TouchSpec.ToUint8 | qtouch.h:99-120 | the velocity byte is the intensity modulo 256, and a value already in 0..255 is unchanged |
| TouchSpec.ToUint16 | qtouch.h:262-269 | an `int16_t` intensity passed as a `uint16_t` parameter becomes its value modulo 2^16, and a value already in range is unchanged |
| TouchSpec.Truncate | qtouch.h:119-120 | a float cast to an integer rounds toward zero: non-negative values round down, negative ones up |
| TouchSpec.RingIndex | qtouch.h:200-206 | `proper_pad` selects an index in [0, 24) congruent to the argument modulo 24, for any negative or oversized argument |
| TouchSpec.RingIndexShift | qtouch.h:200-206 | adding whole turns of the ring to a pad number selects the same pad |
| TouchSpec.RingIsRingIndex | qtouch.h:200-206 | for arguments within one turn of the ring, the one-turn wrap agrees with the modular index |
| TouchSpec.ScanStopsEarly | qtouch.h:224-226 | once the fourth peak is recorded the scan stops there, and no later peak is kept |
| TouchSpec.DiffFits | qtouch.h:56-58 | the difference each pad stores is its left neighbour's sum minus its own, computed through `int16_t` |
| TouchSpec.DiffWraps | qtouch.h:216-218 | the extra iteration i = 24 recomputes pad 0's difference, so the ring closes |
| TouchSpec.IsPeak | qtouch.h:219-221 | a strict ring-local maximum above TOUCH_THRESHOLD; `PeakTest` proves that the scan's sign-change test plus threshold holds exactly there |
| TouchSpec.PeakTest | qtouch.h:219-221 | the sign-change test on two consecutive differences plus the threshold holds exactly at a strict ring-local maximum above the threshold |
| TouchSpec.PeaksBelowArePeaks | qtouch.h:219-223 | every index recorded is below the scan position and is a strict local maximum above the threshold |
| TouchSpec.PeaksBelowSorted | qtouch.h:216-223 | candidates are recorded in strictly ascending ring order, so each at most once |
| TouchSpec.PeaksBelowComplete | qtouch.h:216-223 | an uncapped scan records every peak it passes |
| TouchSpec.PeaksBelowFacts | qtouch.h:216-223 | the three facts above together for a scan prefix |
| TouchSpec.PeaksBelowPrefix | qtouch.h:216-229 | scanning further only appends candidates |
| TouchSpec.Peaks | qtouch.h:214-231 | the candidates the scan keeps: at most MAX_TOUCH_POINTS, and `PeakScan` proves they are the first peaks of the ring in ascending order |
| TouchSpec.PeakScan | qtouch.h:214-231 | the kept candidates are at most four ascending peaks in [0, 24), and a peak is left out only when four earlier peaks were already kept |
| TouchSpec.QuietRingHasNoPeaks | qtouch.h:221 | when no pad sum exceeds the threshold, no candidate is found |
| TouchSpec.WindowSumBounds | qtouch.h:240-244 | the window sum is non-negative, bounded by seven pad sums, and at least the peak's own sum |
| TouchSpec.WindowMomentBounds | qtouch.h:240-245 | the weighted moment lies between the sum times the first and the last window position |
| TouchSpec.Centroid | qtouch.h:234-250 | a peak's intensity exceeds the threshold, and its location lies in [tp − 3, tp + 3] |
| TouchSpec.CentroidInWindow | qtouch.h:240-247 | the window sum is positive and the weighted mean Σ(pos·w)/Σw lies in the seven-pad window around the peak |
| TouchSpec.Candidates | qtouch.h:233-250 | one candidate per kept peak, each with an intensity above the threshold that fits `int16_t` |
| TouchSpec.FirstNear | qtouch.h:259-266 | the first slot, in array order, that is touched and within CLOSE_RANGE of the location, or none |
| TouchSpec.FirstFree | qtouch.h:289-294 | the first untouched slot, or none |
| TouchSpec.UpdateTouch | qtouch.h:112-121 | the slot and the events of one update; `MatchUpdatesFirstNear` states that the first near slot takes the new location and intensity with Note-On for it, then Note-Off for the previous location |
| TouchSpec.Allocate | qtouch.h:288-295 | keeps the number of slots; `MatchAllocatesFirstFree` and `MatchDropsWhenFull` state what allocation does with and without a free slot |
| TouchSpec.MatchOne | qtouch.h:253-271 | keeps the number of slots; `MatchUpdatesFirstNear`, `MatchAllocatesFirstFree` and `MatchDropsWhenFull` state its three cases |
| TouchSpec.MatchAll | qtouch.h:253-271 | keeps the number of slots; `MatchAllStep` states the candidate-by-candidate order and `MatchAllKeepsSlotsOk` the slot invariant it keeps |
| TouchSpec.MatchAllStep | qtouch.h:253-271 | candidates are matched one after another, each against the slots the previous ones left, with events appended in order |
| TouchSpec.MatchUpdatesFirstNear | qtouch.h:259-266 | a candidate updates exactly the first near slot and emits Note-On for the new location, then Note-Off for the previous one |
| TouchSpec.MatchAllocatesFirstFree | qtouch.h:268-269 | with no near slot, the first free slot takes the candidate at its truncated location and emits exactly one Note-On |
| TouchSpec.MatchDropsWhenFull | qtouch.h:288-295 | with no near slot and every slot touched, the candidate is dropped: no slot changes and no event is emitted |
| TouchSpec.EraseSlots | qtouch.h:296-304 | the slots after the end-of-tick sweep; `EndOfTick` states which are reset and which keep their values |
| TouchSpec.EraseEvents | qtouch.h:296-304 | the Note-Offs of the sweep; `EndOfTick` counts them and fixes their status and velocity, `EraseEventsStep` their slot order |
| TouchSpec.EraseEventsStep | qtouch.h:296-304 | the sweep emits the release events slot by slot, in array order |
| TouchSpec.Tick | qtouch.h:209-274 | one tick on the slots; `TickSweeps` splits it into matching and sweep, `TickKeepsSettled` proves it keeps the pool settled, and `QubitTouch.SeekAndUpdateTouchPoint` performs it |
| TouchSpec.TickSweeps | qtouch.h:209-274 | a tick is the matching pass over the candidates followed by the end-of-tick sweep, with events in that order |
| TouchSpec.EndOfTick | qtouch.h:296-304 | after the sweep no slot is updated; a slot not updated this tick, touched or not, becomes untouched at location 100 with intensity 0; updated slots keep location and intensity; one Note-Off (velocity 0x40) per not-updated slot with a callback |
| TouchSpec.FreeSlotEmitsNoteOff | qtouch.h:143-151 | a free slot that once held a callback emits Note-Off for note 100 at every sweep and stays free |
| TouchSpec.MatchAllKeepsSlotsOk | qtouch.h:253-271 | matching keeps every slot consistent: untouched slots hold the initial values, touched slots have a callback, updated slots are touched |
| TouchSpec.TickKeepsSettled | qtouch.h:209-274 | a tick takes a settled slot pool to a settled one, and a slot is touched afterwards exactly when a candidate updated or allocated it this tick |
| TouchSpec.SameSlotUpdatedTwice | qtouch.h:104-110 | the updated flag is ignored in matching, so two candidates of one tick can both update the same slot |
| TouchSpec.LedCalls | qtouch.h:277-285 | the LED calls of `lighten_leds`; `LedReport` and `NoTouchNoLedCall` state one call per touched slot in order and none otherwise |
| TouchSpec.LedReport | qtouch.h:277-285 | one LED call per touched slot, in slot order, carrying that slot's location and intensity, and no call for an untouched slot |
| TouchSpec.NoTouchNoLedCall | qtouch.h:277-285 | no LED call is made exactly when no slot is touched |
| QTouch.MidiSink.Send | qtouch.h:78 | a note callback call is appended to the recorded events |
| QTouch.LedSink.Light | qtouch.h:277 | an LED callback call is appended to the recorded calls |
| QTouch.RotationSum | qtouch.h:46-51 | summing the history in cursor order or in feed order gives the same total |
| QTouch.HistorySum | qtouch.h:48-51 | the history sum is the sum of the last four readings fed and fits `uint16_t` |
| QTouch.HistoryStep | qtouch.h:46-47 | storing at the cursor and advancing it modulo 4 keeps the history equal to the last four readings |
| QTouch.Pad.constructor | qtouch.h:36-42 | a new pad has an all-zero history, sum 0 and difference 0 |
| QTouch.Pad.SetCrnt | qtouch.h:44-52 | the reading goes to the old cursor slot, the cursor advances modulo 4, and `get_crnt()` becomes the sum of the last four readings |
| QTouch.Pad.SumHistory | qtouch.h:48-51 | the re-summing loop leaves the sum of the four history slots |
| QTouch.Pad.SetDiffFromBefore | qtouch.h:56-59 | stores and returns the neighbour's sum minus this pad's sum, as an `int16_t` |
| QTouch.TouchPoint.constructor | qtouch.h:85-90 | a new slot is free: location 100, intensity 0, neither updated nor touched, no callback |
| QTouch.TouchPoint.NewTouch | qtouch.h:92-102 | the slot becomes updated and touched at the location and intensity, takes the callback, and emits exactly one Note-On when the callback is set |
| QTouch.TouchPoint.IsNearHere | qtouch.h:104-110 | true exactly when the slot is touched and its location is within CLOSE_RANGE, whatever its updated flag |
| QTouch.TouchPoint.UpdateTouch | qtouch.h:112-121 | the slot moves to the new location and intensity (as `int16_t`) and always emits Note-On for the new location, then Note-Off for the previous one |
| QTouch.TouchPoint.ClearUpdatedFlag | qtouch.h:139-141 | only the updated flag is cleared |
| QTouch.TouchPoint.Released | qtouch.h:143-151 | the slot becomes untouched at location 100 with intensity 0, after a Note-Off for its old location when a callback is set |
| QTouch.TempCandidates | qtouch.h:210-212 | the filled part of the temporary array, read as candidates |
| QTouch.QubitTouch.DistinctParts | qtouch.h:159-160 | distinct array positions hold distinct pads, history buffers and slots |
| QTouch.QubitTouch.CrntsInRange | qtouch.h:28 | every pad sum is within the bound of four readings |
| QTouch.QubitTouch.constructor | qtouch.h:167-172 | a new engine has all-zero pads, four free slots, no touch and the given callback |
| QTouch.QubitTouch.InitialState | qtouch.h:167-172 | freshly built pads and slots form a settled engine with zero sums, zero differences and free slots |
| QTouch.QubitTouch.SetValue | qtouch.h:180-182 | feeds one reading to the chosen pad only, and its sum becomes the sum of its last four readings |
| QTouch.QubitTouch.ProperPad | qtouch.h:200-206 | returns the pad at the ring index of the argument |
| QTouch.QubitTouch.SeekAndUpdateTouchPoint | qtouch.h:209-274 | one tick: pad sums and histories unchanged, `touch_count_` equals the number of kept peaks, the differences are those of the scan, and the slots and note events are exactly those of `Tick` on the old slots |
| QTouch.QubitTouch.TickFrom | qtouch.h:209-274 | the same tick stated for given pad sums, differences and histories |
| QTouch.QubitTouch.LocateTouches | qtouch.h:214-250 | phases 1 and 2 leave the candidates of the pad sums and keep the pads valid |
| QTouch.QubitTouch.FindCandidates | qtouch.h:214-250 | phases 1 and 2 produce exactly `Candidates` of the pad sums, with `touch_count_` the number of peaks |
| QTouch.QubitTouch.TrackTouches | qtouch.h:252-273 | phase 3 and the sweep perform `Tick` on the slots and leave the pads alone |
| QTouch.QubitTouch.TrackTick | qtouch.h:252-273 | phase 3 and the sweep on the candidates of the pad sums give the slots and events of `Tick` |
| QTouch.QubitTouch.MatchAndSweep | qtouch.h:252-273 | matching then sweeping gives the slots and events of `MatchAll` followed by the sweep |
| QTouch.QubitTouch.ScanPeaks | qtouch.h:214-231 | the scan stores every difference it computes and records the peaks in order, stopping at the fourth |
| QTouch.QubitTouch.KeepPeak | qtouch.h:219-226 | after step i the kept pads are exactly the peaks below i, in order; `stop` holds exactly when the fourth is kept, and then they are all of `Peaks` and the scan ends at i |
| QTouch.QubitTouch.StoreDiff | qtouch.h:217-218 | one scan step stores pad i's difference and leaves every other pad's unchanged |
| QTouch.QubitTouch.ScanDoneAt | qtouch.h:224-231 | differences stored up to where the scan stopped are the scanned differences |
| QTouch.QubitTouch.ComputeCentroids | qtouch.h:233-250 | fills each recorded candidate with the centroid of its window |
| QTouch.QubitTouch.WindowCentroid | qtouch.h:235-249 | the seven-pad loop computes the intensity and the weighted mean location of `Centroid` |
| QTouch.QubitTouch.MatchCandidate | qtouch.h:254-270 | one candidate updates the first near slot or else allocates the first free one, as `MatchOne` |
| QTouch.QubitTouch.UpdateAt | qtouch.h:260-264 | the found slot alone is updated, emitting Note-On then Note-Off |
| QTouch.QubitTouch.NewTouchPoint | qtouch.h:288-295 | the first untouched slot takes the truncated location and emits Note-On; with none free nothing changes |
| QTouch.QubitTouch.MatchCandidates | qtouch.h:253-271 | phase 3 over the recorded candidates gives the slots and events of `MatchAll` |
| QTouch.QubitTouch.MatchNext | qtouch.h:253-271 | one more candidate extends the `MatchAll` of the previous ones |
| QTouch.QubitTouch.EraseTouchPoint | qtouch.h:296-304 | every slot is swept as `EraseSlots`, with the Note-Offs of `EraseEvents` in slot order |
| QTouch.QubitTouch.EraseOne | qtouch.h:297-302 | one slot is released or has its flag cleared, and the others are unchanged |
| QTouch.QubitTouch.LightenLeds | qtouch.h:277-285 | the LED callback receives exactly `LedCalls` of the slots |
| I2c.Rest | peripheral.cpp:43-48 | after one write the bus answers with the next scripted status |
| I2c.Drop | peripheral.cpp:43-48 | after n writes the bus answers with the statuses from position n on |
| I2c.RestOfDrop | peripheral.cpp:43-48 | one more write after n writes leaves the statuses from n + 1 on |
| I2c.I2cBus.constructor | peripheral.cpp:43-48 | a new bus has an empty log and the given status script |
| I2c.I2cBus.Write | peripheral.cpp:43-48 | a write records the address and the first `count` bytes of the buffer and returns the next scripted status |
| Ada88.FrameLayout | peripheral.cpp:837-841 | byte 0 is 0, byte 2i+1 is row i, byte 2i+2 is 0, and the rows are read back unchanged |
| Ada88.SendFrame | peripheral.cpp:837-842 | the eight rows are sent as one frame to address 0x70 |
| Ada88.NumLetter | peripheral.cpp:880-891 | each digit glyph has five rows that never touch bits 3..7 |
| Ada88.GlyphIndex | peripheral.cpp:880-891 | recognises a digit glyph by its rows |
| Ada88.GlyphIndexOf | peripheral.cpp:880-891 | the ten digit glyphs are pairwise different, so each is recognised as its own digit |
| Ada88.GraphIndex | peripheral.cpp:898-909 | recognises a units bar by its rows |
| Ada88.GraphIndexOf | peripheral.cpp:898-909 | the ten bars are pairwise different, so each is recognised as its own digit |
| Ada88.ClampNumber | peripheral.cpp:911-912 | the number is clamped to [−1999, 1999] and is otherwise unchanged |
| Ada88.DigitsOf | peripheral.cpp:921-925 | hundreds, tens and units are decimal digits that rebuild the three-digit number |
| Ada88.DigitRowParts | peripheral.cpp:927-932 | a digit row gives back the hundreds glyph from its low bits and the tens glyph from bits 4..6, and the flag alone decides bit 7 |
| Ada88.Magnitude | peripheral.cpp:916-919 | the absolute value |
| Ada88.ThousandFlagMeaning | peripheral.cpp:915 | C's `num/1000` is non-zero exactly when the magnitude is at least 1000 |
| Ada88.NumberRows | peripheral.cpp:892-935 | the eight rows shown for a number; `NumberGlyphs`, `NumberMarks` and `NumberRoundTrip` state their layout and that the clamped number reads back |
| Ada88.NumberGlyphs | peripheral.cpp:921-935 | rows 0..4 hold the hundreds glyph and the tens glyph shifted by 4, and rows 6..7 the units bar, all of the magnitude modulo 1000 |
| Ada88.NumberMarks | peripheral.cpp:915-919 | bit 7 of row 2 is set exactly for a negative number and bit 7 of row 5 exactly for a magnitude of at least 1000; no other row 0..5 has a mark |
| Ada88.NumberRoundTrip | peripheral.cpp:892-935 | the number read back from the rows is the clamped input |
| Ada88.DrawDigits | peripheral.cpp:927-935 | the three glyph loops turn the marked rows into `DigitFrame` |
| Ada88.NumberPattern | peripheral.cpp:892-935 | the pattern built is `NumberRows` of the input |
| Ada88.WriteNumber | peripheral.cpp:892-943 | sends the frame of `NumberRows` of the input |
| Ada88.Letter | peripheral.cpp:790-835 | the eight rows of a table entry; `WriteLetter` sends them framed |
| Ada88.WriteLetter | peripheral.cpp:787-843 | sends the frame of the letter's eight rows |
| Ada88.WordRows | peripheral.cpp:995-1012 | the eight rows shown for a word; `WordRoundTrip` states rows 0..5 dark and rows 6..7 rotating back to the word's bytes |
| Ada88.WordRoundTrip | peripheral.cpp:995-1012 | rows 0..5 are dark, and rotating rows 6 and 7 back gives the upper and the lower byte of the word |
| Ada88.WordPattern | peripheral.cpp:995-1012 | the pattern built is `WordRows` of the word |
| Ada88.WriteBit | peripheral.cpp:984-1021 | sends the frame of `WordRows` of the word |
| Ada88.Weight | peripheral.cpp:1024-1029 | the number built from a list of flags is below 2 to the number of flags |
| Ada88.WeightBits | peripheral.cpp:1025-1029 | bit k of that number is set exactly when flag k holds |
| Ada88.WeightSnoc | peripheral.cpp:1025-1029 | one more flag adds its power of two when set |
| Ada88.OrgBitWord | peripheral.cpp:1024-1029 | the loop packs `bit[i]` into bit i of a 16-bit word, for i in 0..15 |
| Ada88.WriteOrgBit | peripheral.cpp:1023-1031 | sends the word frame of the packed flags |
| Ada88.AtMost | peripheral.cpp:952-956 | a parameter is clamped to its maximum and is otherwise unchanged |
| Ada88.RuleStep | peripheral.cpp:962-964 | one more pass of the horizontal loop sets one more low bit of row 7 |
| Ada88.RuleIndex | peripheral.cpp:962-964 | recognises the length of the horizontal bar from row 7 |
| Ada88.RuleIndexOf | peripheral.cpp:962-964 | each bar length is recognised as itself |
| Ada88.RowMarks | peripheral.cpp:958-975 | row 7 always has bit 7 set plus the horizontal bar; other rows carry 0x80, 0x20 and 0x40 exactly inside the three vertical bars and the digit glyph in bits 1..3 |
| Ada88.CountBar | peripheral.cpp:966-975 | a vertical bar of length c lights exactly rows 6 down to 7 − c |
| Ada88.ShownFromMarks | peripheral.cpp:958-975 | rows with those marks are read back as the five parameters |
| Ada88.ParamRows | peripheral.cpp:952-975 | the eight rows shown for five parameters; `ParamRoundTrip` reads back the clamped parameters and `ParamRowsFrom` gives the drawing order |
| Ada88.ParamRoundTrip | peripheral.cpp:945-975 | the parameters read back from the rows are the inputs clamped to 9, 7, 7, 7 and 7 |
| Ada88.ParamRowsFrom | peripheral.cpp:952-975 | the rows are the glyph and horizontal bar, then the three vertical bars in source order |
| Ada88.DrawBar | peripheral.cpp:966-975 | one vertical loop ORs its mask into rows 6 down to 7 − c and leaves the others |
| Ada88.DrawRule | peripheral.cpp:962-964 | the horizontal loop ORs the bar into row 7 and leaves rows 0..6 |
| Ada88.ParamPattern | peripheral.cpp:950-975 | the pattern built is `ParamRows` of the inputs |
| Ada88.WriteFiveParams | peripheral.cpp:945-983 | sends the frame of `ParamRows` of the inputs |
| Ada88.SftInverse | peripheral.cpp:1045 | the column shuffle is its own inverse |
| Ada88.ColumnShift | peripheral.cpp:1052 | `0x80 >> j` is the mask of column j |
| Ada88.ColumnByteLit | peripheral.cpp:1053-1058 | the inner loop lights bit j of the register exactly when column i of byte j is lit |
| Ada88.Transpose | peripheral.cpp:1051-1060 | the bit-matrix transpose of eight rows; `TransposeLit` and `TransposeTwice` state its meaning |
| Ada88.TransposeLit | peripheral.cpp:1051-1060 | LED (i, j) of the transpose is LED (j, i) of the input |
| Ada88.SameLeds | peripheral.cpp:1051-1060 | two rows lighting the same LEDs are equal |
| Ada88.TransposeTwice | peripheral.cpp:1051-1060 | transposing twice gives the input back |
| Ada88.AnimeWindow | peripheral.cpp:1044-1048 | the window holds eight consecutive bitmap bytes from `time`, modulo 64, in shuffled order |
| Ada88.ColumnRegister | peripheral.cpp:1052-1058 | the register gathers column i of the window |
| Ada88.AnimePattern | peripheral.cpp:1044-1061 | the rows sent are the transpose of the window |
| Ada88.Anime | peripheral.cpp:1033-1063 | sends the frame of the transposed window |
| Mbr3110.CapSenseAddress | peripheral.cpp:445-459 | sensor chip `number` answers at 0x38 + number |
| Mbr3110.Level2 | peripheral.cpp:586-587 | the level `data & 3` in the two low fields; `LevelFields` states its meaning |
| Mbr3110.Level4 | peripheral.cpp:588 | the level in all four fields; `LevelFields` states its meaning |
| Mbr3110.LevelFields | peripheral.cpp:586-588 | every one of the ten sensors gets level `data & 3`, the unused fields of SENSITIVITY2 stay 0, and the bytes are 5 and 0x55 times the level |
| Mbr3110.SensitivityWrite | peripheral.cpp:591-598 | write n of the cascade: SENSITIVITY0 and SENSITIVITY1 with `Level4`, SENSITIVITY2 with `Level2`; `AllSensorsSet` proves the three set all ten sensors |
| Mbr3110.WritesAsWritten | peripheral.cpp:591-603 | the code as written writes SENSITIVITY0, then the next register only after a failed write |
| Mbr3110.AsWrittenStopsOnSuccess | peripheral.cpp:593-603 | on a bus that acknowledges the first write, only SENSITIVITY0 is written |
| Mbr3110.AsWrittenNeedsFailures | peripheral.cpp:593-603 | all three registers are written only when the first two writes fail |
| Mbr3110.SensitivityWrites | peripheral.cpp:591-603 | the corrected cascade writes the registers in order |
| Mbr3110.AllSensorsSet | peripheral.cpp:591-603 | the corrected cascade goes on while writes succeed, stops at the first failure, and when all three succeed every sensor gets the level |
| Mbr3110.LevelBytes | peripheral.cpp:586-588 | computes the two level bytes |
| Mbr3110.WriteRegister | peripheral.cpp:591-593 | one two-byte register write to the chip |
| Mbr3110.ChangeSensitivityAsWritten | peripheral.cpp:583-604 | the bus receives exactly the writes of the code as written |
| Mbr3110.ChangeSensitivity | peripheral.cpp:583-604 | the bus receives exactly the writes of the corrected cascade |
| Pca9544.ControlByte | peripheral.cpp:1130 | the control byte; `ControlByteMeaning` states its meaning |
| Pca9544.MuxAddress | peripheral.cpp:1131 | the multiplexer address fits a byte; `MuxAddressMeaning` states its value |
| Pca9544.ControlByteMeaning | peripheral.cpp:1130 | the control byte always enables the multiplexer, selects channel `i2c_num` mod 4 and leaves bits 3..7 clear |
| Pca9544.MuxAddressMeaning | peripheral.cpp:1131 | device n of 0..7 is at 0x70 + n, and the device number counts modulo 256 |
| Pca9544.ChangeI2cBus | peripheral.cpp:1128-1135 | writes the one control byte to the multiplexer and returns the bus status |
| Pca9685.PwmCount | peripheral.cpp:1100-1102 | the PWM count of a colour; `PwmCountMeaning` states its value in every case |
| Pca9685.PwmCountMeaning | peripheral.cpp:1100-1102 | the count is 4095 − colour, 0 becomes 1, and colours above 4095 wrap modulo 2^16 |
| Pca9685.RegisterDecode | peripheral.cpp:1106-1112 | the twelve registers lie in 0x06..0x41 and each belongs to exactly one LED, colour and byte |
| Pca9685.FirstFailure | peripheral.cpp:1107-1112 | the first failing write among the first n, or n |
| Pca9685.AllColorWritesMade | peripheral.cpp:1096-1113 | on a bus that acknowledges every write, all twelve writes are made and the result is 0 |
| Pca9685.ColorWritesStop | peripheral.cpp:1107-1112 | the first failing write is the last one made, and its status is returned |
| Pca9685.Write | peripheral.cpp:1073-1079 | one two-byte write to the chip, returning the bus status |
| Pca9685.ColorWrites | peripheral.cpp:1096-1113 | twelve writes; `ColorWriteAt` and `RegisterDecode` state which register and byte each one sets, and `SetFullColorLed` sends a prefix of them |
| Pca9685.ColorWriteAt | peripheral.cpp:1106-1112 | write 4i + b sets register 0x06 + 4i + 16·led + b to the matching byte of the count |
| Pca9685.WriteNext | peripheral.cpp:1107-1112 | one write extends the log by the next planned write |
| Pca9685.WritePair | peripheral.cpp:1107-1112 | two writes in a row, stopping at a failure |
| Pca9685.WriteColor | peripheral.cpp:1098-1112 | one colour's four writes, stopping at a failure |
| Pca9685.SetFullColorLed | peripheral.cpp:1092-1114 | the bus receives the first `WritesMade` of the twelve writes, and the result is the first failing status, or 0 |

## Left out

- Floating point: locations are `real`. The centroid `locate /= sum` is the exact ratio, with no rounding.
- Float-to-integer casts of a negative location are undefined in C++. `TouchSpec.Truncate` rounds toward zero for every sign, and the model keeps that integer without reducing it modulo 256 or 2^16.
- QTouch.Pad.SetCrnt: readings are bounded by MAX_READING = 1170, so that the `uint16_t` pad sum and the `int16_t` window sum cannot wrap. Wrap-around of those sums is not modelled.
- QTouch.QubitTouch.SetValue: the same reading bound as `SetCrnt`, and `pad_num` must be a valid pad index.
- QTouch.TouchPoint.UpdateTouch: requires a callback. The code calls it unchecked, which throws when it is empty; the engine always passes its own callback.
- The `std::function` plumbing is reduced to "callback set or not" (`MidiSink?`), and the engine's callback is non-null.
- `top_flag_`, `note_top_flag` and `is_top_flag` are not modelled. The flag is written but never read.
- The `debug`/`deb_val` diagnostics and the plain getters (`get_crnt`, `diff_from_before`, `get_touch_count`, `get_touch_point`, `touch_point`, `is_touched`, `is_updated`, `get_location`, `get_intensity`) have no members of their own. The model reads the fields directly.
- The bus: `write_i2cDevice` and `Wire` are the recording sink `I2cBus`. Reads, bus bring-up, retries and delays are not modelled.
- Device bring-up is not part of this model: MBR3110 reset, setup, configuration, self test and reads; AT42QT; SSD1331; `PCA9685_init`; `ada88_init`. The 128-byte configuration tables are left out too.
- Ada88: C's truncating division is written out as `CDiv` where `num/1000` may be negative.
- Ada88.WriteBit models both `ada88_write_bit` and `ada88_writeBit`. The two build the identical frame (peripheral.cpp:856-869 and 995-1012).
- Ada88.AnimePattern: requires 0 ≤ `time` ≤ 2^31 − 8. For a negative `time`, C's `%` gives a negative table index; beyond that bound, `time + i` overflows.
- Ada88.Anime: the code writes the transposed rows straight into the frame buffer. The model builds the rows first and then frames them.
- Ada88.WriteLetter: the letter index must be within the table. An index past it reads outside the array.
- Ada88.WriteFiveParams: the `uint8_t` parameters are `nat`. Values of 256 or more are not reduced modulo 256.
- The code has no hysteresis on note changes, no grace period before release, no closest-slot matching, no velocity mapping and no "no touch" LED sentinel; the model adds none.

## Findings

| source | as written | input that shows it | evidently intended | confidence | as-written member | corrected member |
|---|---|---|---|---|---|---|
| peripheral.cpp:593-603 | `MBR3110_changeSensitivity` writes SENSITIVITY1 only if the SENSITIVITY0 write returned non-zero (failed), and SENSITIVITY2 only if that one failed too | a bus that acknowledges the first write (status 0): only SENSITIVITY0 is written, so sensors 4..9 keep their old level | write the next register while the writes succeed, so all ten sensors get the level | not executed | Mbr3110.ChangeSensitivityAsWritten, Mbr3110.AsWrittenStopsOnSuccess | Mbr3110.ChangeSensitivity, Mbr3110.AllSensorsSet |
