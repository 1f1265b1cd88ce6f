# Sound engine and score aligner, modelled in Dafny

This project models the core of the music-app sound engine. The engine listens to a
microphone, estimates the pitch being played, turns frequencies into note names, reads
score and transcription files, and aligns the notes that were played with the notes of
the score.

The modules follow the Java classes:

- `Results`: Java `null` as `Option`, exceptions as `Result`, Java's truncating
  integer division and `(int)` cast, and real division with its divisor checked.
- `Bytes`: Java `byte` and `short`, the `(byte)` cast, and `ByteBuffer.getShort` in
  big-endian order.
- `Notes`: `MusicNote`, `TranscribedNote` (`getDuration`) and `NotePair`.
- `NoteTable`: `NoteUtil`, the note table from A0 to B7 built from the base pitch (A4),
  the name-to-frequency lookup, and the binary search `findClosestNote`. The same table
  code is repeated in both `SoundEngine` classes.
- `EditGrid`: the dynamic-programming grid that `computeAlignment` fills, shared by both
  aligners. Each cell records its move (skip a score note, add a played note, align
  both) and its cost.
- `Median`: `Collections.sort` and the middle element that `estimateTempo` takes.
- `Alignment`: `alignment/NoteAligner`. It covers the per-note costs, the backtrace of
  `getAlignment`, the tempo estimate, and `updateAlignment`.
- `AlignmentText`: `alignment/NoteAlignment.getStringRepresentation`, a two-line,
  four-character-per-cell rendering.
- `LegacyAlignment`: the older root `NoteAligner`. It has its own costs, codes and
  backtrace, and reuses the same grid.
- `Spectrum`: `FFT`. It covers the Hamming window and its cache, `doFft`, the
  threshold-region peak scan `findPeaks`, the quadratic refinement
  `computePeakFrequency`, and `getPeakCloseToPitch`.
- `Harmonics`: `computeFrequencyFromPeaks`. Peaks go into harmonic slots of the first
  peak, and the frequency is the least-squares slope through them.
- `SoundEngine`: the newer engine. It covers the constructor, `copyBufferToData`,
  `analyzePitch`, `findNoteOnsets` (a 200-sample sliding mean compared with the mean 1500
  samples earlier), and `sampleMic`.
- `LegacyEngine`: the first engine, whose inline `processSample` is shown equal to the
  newer engine's `analyzePitch` on the same samples.
- `Microphone`: `microphone/LinuxFileMicrophone`. It covers `initialize` and the byte
  rewrite that recentres unsigned 8-bit samples.
- `ScoreFiles`: the line readers `TranscribedNote.readNotesFromFile`,
  `MusicNote.readNotesFromFile` and `SheetMusic.readFromFile`.

Numbers and failures are modelled as follows:

- Java `double` is `real`.
- `Math.log`, `Math.sqrt`, `Math.cos` and the JTransforms Fourier transform are fields of
  a `Spectrum.Numerics` parameter.
- `Double.parseDouble` is a parameter returning `None` where Java throws
  `NumberFormatException`.
- Exceptions the code can throw appear as `Failure` results. These are: index out of
  bounds, negative array size, a buffer underflow (`ByteBuffer.getShort` past the end of
  the buffer), a failed number parse, the unsupported-bit-rate exception, division by
  zero, and the aligners' "There's a bug somewhere" exception for a grid cell holding no
  known move.

## Model

| member | source | states |
|---|---|---|
| Results.JavaDiv | sound_engine/src/com/gardner/soundengine/SoundEngine.java:303 | Java int division by a positive divisor truncates toward zero: the quotient times the divisor lies at most one divisor below a non-negative dividend and at most one divisor above a negative one, and a non-zero quotient has the dividend's sign |
| Results.Quot | sound_engine/src/com/gardner/soundengine/alignment/NoteAligner.java:162-163 | a double quotient: when the divisor is non-zero the quotient times the divisor gives back the dividend |
| Results.Truncate | sound_engine/src/com/gardner/soundengine/SoundEngine.java:369 | the (int) cast of a double is the integer next to it toward zero, at most one away |
| Bytes.Wrap8 | sound_engine/src/com/gardner/soundengine/microphone/LinuxFileMicrophone.java:69-71 | the (byte) cast keeps the value modulo 256 and leaves values already in the byte range unchanged |
| Bytes.Unsigned | sound_engine/src/com/gardner/soundengine/SoundEngine.java:104 | the unsigned reading of a byte lies in 0..255 and casts back to the same byte |
| Bytes.ShortOfBytes | sound_engine/src/com/gardner/soundengine/SoundEngine.java:101-104 | reading two bytes as a big-endian short loses nothing: the high and low bytes come back from it |
| Bytes.BytesOfShort | sound_engine/src/com/gardner/soundengine/SoundEngine.java:101-104 | every short is the big-endian reading of its own two bytes |
| Notes.Duration | sound_engine/src/com/gardner/soundengine/common/TranscribedNote.java:45-47 | the onset plus the duration is the end, and the duration is non-negative exactly when the note ends no earlier than it starts |
| Notes.AddedPairsSides | sound_engine/src/com/gardner/soundengine/alignment/NoteAligner.java:75-78 | the drain of played notes yields exactly those notes, in order, as one-sided pairs and no score notes |
| Notes.SkippedPairsSides | sound_engine/src/com/gardner/soundengine/alignment/NoteAligner.java:71-74 | the drain of score notes yields exactly those notes, in order, as one-sided pairs and no played notes |
| NoteTable.Build | sound_engine/src/com/gardner/soundengine/common/NoteUtil.java:91-119 | the table has 87 entries from A0 at base / 16 to B7, each frequency the previous times the constant 1.0594630943592953 (2^(1/12)), with A4 at index 48 |
| NoteTable.InitializeNoteFrequencies | sound_engine/src/com/gardner/soundengine/common/NoteUtil.java:91-119 | the while loop over octave and pitch class fills exactly the closed-form table |
| NoteTable.BuildUnique | sound_engine/src/com/gardner/soundengine/common/NoteUtil.java:107-118 | any table of the right size holding every entry's name and frequency is the built table |
| NoteTable.BuildIncreasing | sound_engine/src/com/gardner/soundengine/common/NoteUtil.java:101-111 | for a positive base pitch the frequencies strictly increase with the index |
| NoteTable.BuildPositive | sound_engine/src/com/gardner/soundengine/common/NoteUtil.java:102-111 | for a positive base pitch every frequency is positive |
| NoteTable.NamesDistinct | sound_engine/src/com/gardner/soundengine/common/NoteUtil.java:109-110 | no two table entries share a name, so the name map loses no entry |
| NoteTable.IndexOf | sound_engine/src/com/gardner/soundengine/common/NoteUtil.java:47 | the index of the first occurrence of a name, or none exactly when the name is absent |
| NoteTable.GetNoteFrequency | sound_engine/src/com/gardner/soundengine/common/NoteUtil.java:43-52 | -1 for a name the table lacks, otherwise the frequency recorded with that name |
| NoteTable.NoteFrequencyOfName | sound_engine/src/com/gardner/soundengine/common/NoteUtil.java:43-52 | round trip: looking up a generated name returns that entry's own frequency |
| NoteTable.MinFrequency | sound_engine/src/com/gardner/soundengine/common/NoteUtil.java:25-30 | on an increasing table the first frequency is no larger than any entry |
| NoteTable.MaxFrequency | sound_engine/src/com/gardner/soundengine/common/NoteUtil.java:32-37 | on an increasing table the last frequency is no smaller than any entry |
| NoteTable.SetBasePitchRange | sound_engine/src/com/gardner/soundengine/common/NoteUtil.java:20-23 | after setBasePitch(freq) the lowest note is freq / 16 and lies below the highest |
| NoteTable.Step | sound_engine/src/com/gardner/soundengine/common/NoteUtil.java:70-88 | one turn of the search loop returns only a strictly nearest entry, keeps the bracket invariant, and narrows the bracket unless the frequency is midway between two entries |
| NoteTable.ExactIsStrictlyNearest | sound_engine/src/com/gardner/soundengine/common/NoteUtil.java:85-86 | on an increasing table, the entry equal to the frequency is strictly nearer than every other |
| NoteTable.NearestBelow | sound_engine/src/com/gardner/soundengine/common/NoteUtil.java:71-73 | a frequency just above entry k is nearest to k, strictly when nearer to it than to k + 1 |
| NoteTable.NearestAbove | sound_engine/src/com/gardner/soundengine/common/NoteUtil.java:78-80 | a frequency just below entry k is nearest to k, strictly when nearer to it than to k - 1 |
| NoteTable.SearchFrom | sound_engine/src/com/gardner/soundengine/common/NoteUtil.java:67-88 | when the frequency is midway between no two entries the loop returns, and it returns a nearest entry |
| NoteTable.FindClosestNote | sound_engine/src/com/gardner/soundengine/common/NoteUtil.java:58-89 | null exactly outside [lowest, highest], otherwise the name of a nearest table note |
| NoteTable.FindClosestNoteExact | sound_engine/src/com/gardner/soundengine/common/NoteUtil.java:58-89 | a frequency equal to a table entry is named by that entry |
| NoteTable.NearestUnique | sound_engine/src/com/gardner/soundengine/common/NoteUtil.java:58-89 | unless the frequency is midway between two entries, the nearest entry is unique |
| NoteTable.NearestPairAdjacent | sound_engine/src/com/gardner/soundengine/common/NoteUtil.java:58-89 | two different nearest entries are neighbours with the frequency exactly between them |
| NoteTable.Iterate | sound_engine/src/com/gardner/soundengine/common/NoteUtil.java:70-88 | any number of loop turns keeps the bracket invariant, and on a midway frequency never returns |
| NoteTable.StepKeepsSearching | sound_engine/src/com/gardner/soundengine/common/NoteUtil.java:70-88 | a single turn of the loop never returns for a frequency midway between two entries |
| NoteTable.EquidistantNeverReturns | sound_engine/src/com/gardner/soundengine/common/NoteUtil.java:71-84 | midway between entries k and k + 1, both strict comparisons fail, so the loop turn goes on |
| NoteTable.NoStrictlyNearest | sound_engine/src/com/gardner/soundengine/common/NoteUtil.java:71-84 | midway between entries k and k + 1 no entry is strictly nearest |
| NoteTable.EquidistantLoopsForever | sound_engine/src/com/gardner/soundengine/common/NoteUtil.java:67-88 | for a frequency exactly midway between two neighbouring entries, the search is still looping after any number of turns |
| NoteTable.TieStep | sound_engine/src/com/gardner/soundengine/common/NoteUtil.java:70-88 | the corrected turn, with ties going to the lower entry, returns a nearest entry or strictly narrows the bracket |
| NoteTable.TieSearchFrom | sound_engine/src/com/gardner/soundengine/common/NoteUtil.java:67-88 | the corrected loop always terminates with a nearest entry |
| NoteTable.ClosestNote | sound_engine/src/com/gardner/soundengine/common/NoteUtil.java:58-89 | the corrected lookup is total: null exactly outside the range, otherwise a nearest note's name |
| NoteTable.ClosestNoteAgrees | sound_engine/src/com/gardner/soundengine/common/NoteUtil.java:58-89 | wherever the search as written returns, the corrected lookup returns the same name |
| EditGrid.CellSelection | sound_engine/src/com/gardner/soundengine/alignment/NoteAligner.java:180-273 | each cell's move is available there and its cost is what that move costs; skip or add is chosen exactly when strictly cheaper than every other available move, and align otherwise |
| EditGrid.CheapestAlignChosen | sound_engine/src/com/gardner/soundengine/alignment/NoteAligner.java:207-273 | when aligning costs no more than any available move, the cell aligns at the least cost |
| EditGrid.AddSkipTieChoosesAlign | sound_engine/src/com/gardner/soundengine/alignment/NoteAligner.java:264-273 | an interior tie between skip and add, both below align, still stores align with its higher cost |
| EditGrid.EdgeCells | sound_engine/src/com/gardner/soundengine/alignment/NoteAligner.java:180-242 | the corner always aligns, row 0 never adds and column 0 never skips |
| EditGrid.RowPrefixNonNegative | sound_engine/src/com/gardner/soundengine/alignment/NoteAligner.java:184-187 | skipping every score note before column m costs at least 0 when each skip does |
| EditGrid.ColPrefixNonNegative | sound_engine/src/com/gardner/soundengine/alignment/NoteAligner.java:219-222 | adding every played note before row t costs at least 0 when each add does |
| EditGrid.CellCostMonotone | sound_engine/src/com/gardner/soundengine/alignment/NoteAligner.java:174-277 | with non-negative note costs every cell costs at least 0 and at least as much as the cell its move came from |
| EditGrid.ComputeGrid | sound_engine/src/com/gardner/soundengine/alignment/NoteAligner.java:174-277 | the row-by-row double loop produces a rows x cols grid equal, cell by cell, to the recursive definition |
| Alignment.NewAligner | sound_engine/src/com/gardner/soundengine/alignment/NoteAligner.java:22-27 | a new aligner holds the score, no played notes, no tempo estimate and no grid |
| Alignment.NotePitchPositive | sound_engine/src/com/gardner/soundengine/alignment/NoteAligner.java:166 | under sane input every score note's looked-up pitch is positive |
| Alignment.CellCostsNonNegative | sound_engine/src/com/gardner/soundengine/alignment/NoteAligner.java:121-277 | under sane input every cell of the aligner's grid costs at least 0 and no less than its predecessor |
| Alignment.AlignCostNonNegative | sound_engine/src/com/gardner/soundengine/alignment/NoteAligner.java:147-172 | under sane input the align cost of any two notes is non-negative |
| Alignment.GridCodesValid | sound_engine/src/com/gardner/soundengine/alignment/NoteAligner.java:18-20 | every grid cell holds one of the three distinct codes 1, 2, 3 |
| Alignment.TraceComplete | sound_engine/src/com/gardner/soundengine/alignment/NoteAligner.java:50-79 | on a grid of valid codes the backtrace succeeds, returns every played note and every score note once and in order, and every pair has a side, so the "bug" exception never fires |
| Alignment.TraceFollowsMove | sound_engine/src/com/gardner/soundengine/alignment/NoteAligner.java:55-64 | from any cell, the last pair emitted is the cell's own move: added note alone, skipped note alone, or both aligned |
| Alignment.ExtendPairs | sound_engine/src/com/gardner/soundengine/alignment/NoteAligner.java:55-64 | appending a pair appends its notes to the two sides of the alignment |
| Alignment.Backtrace | sound_engine/src/com/gardner/soundengine/alignment/NoteAligner.java:43-80 | the pairs' played side is exactly the played notes and their score side exactly the score, and no pair is empty |
| Alignment.SingleNotePaired | sound_engine/src/com/gardner/soundengine/alignment/NoteAligner.java:53-68 | a one-note score played as one note comes back as one aligned pair |
| Alignment.TempoSamplesConsecutive | sound_engine/src/com/gardner/soundengine/alignment/NoteAligner.java:93-111 | the scan takes one sample for every two consecutive full pairs, onset to onset over the first pair's beats (no onset being the -1 sentinel) |
| Alignment.ScanWithoutPrevious | sound_engine/src/com/gardner/soundengine/alignment/NoteAligner.java:93-111 | from the reset state the scan yields exactly the consecutive-pair samples |
| Alignment.ScanAfter | sound_engine/src/com/gardner/soundengine/alignment/NoteAligner.java:104-110 | after a full pair the scan yields the consecutive-pair samples of the list headed by that pair |
| Alignment.MedianTempo | sound_engine/src/com/gardner/soundengine/alignment/NoteAligner.java:112-118 | with fewer than three samples the tempo is kept; otherwise it is one of the samples with at most n / 2 below it and at most n - 1 - n / 2 above it |
| Alignment.BeatsPerMinute | sound_engine/src/com/gardner/soundengine/alignment/NoteAligner.java:82-84 | beats per minute times seconds per beat is 60 |
| Alignment.ComputeAlignment | sound_engine/src/com/gardner/soundengine/alignment/NoteAligner.java:174-177 | computing the grid marks it present and changes no other field |
| Alignment.GetAlignment | sound_engine/src/com/gardner/soundengine/alignment/NoteAligner.java:43-80 | the notes are unchanged, an aligner with a grid is unchanged, and the pairs cover the played notes and the score exactly, in order |
| Alignment.EstimateTempo | sound_engine/src/com/gardner/soundengine/alignment/NoteAligner.java:86-119 | the tempo becomes the estimate from the pairs read back, and nothing else changes |
| Alignment.UpdateAlignment | sound_engine/src/com/gardner/soundengine/alignment/NoteAligner.java:29-37 | the unseen notes are appended and the count becomes the list's size; a list shorter than the count appends nothing and keeps the count |
| Alignment.GetAlignmentIdempotent | sound_engine/src/com/gardner/soundengine/alignment/NoteAligner.java:43-80 | reading the alignment twice in a row gives the same aligner and the same pairs |
| Median.Insert | sound_engine/src/com/gardner/soundengine/alignment/NoteAligner.java:116 | inserting into a sorted list keeps it sorted and adds exactly that element |
| Median.Sort | sound_engine/src/com/gardner/soundengine/alignment/NoteAligner.java:116 | the result is sorted and a permutation of the input |
| Median.CountsOfPermutation | sound_engine/src/com/gardner/soundengine/alignment/NoteAligner.java:116-118 | the number of samples below or above a value does not depend on their order |
| Median.SortedCounts | sound_engine/src/com/gardner/soundengine/alignment/NoteAligner.java:118 | in a sorted list at most k elements lie below element k and at most n - 1 - k above it |
| Median.MedianOf | sound_engine/src/com/gardner/soundengine/alignment/NoteAligner.java:116-118 | the median taken is one of the samples |
| Median.MedianSplits | sound_engine/src/com/gardner/soundengine/alignment/NoteAligner.java:116-118 | at most n / 2 samples lie below the chosen sample and at most n - 1 - n / 2 above it |
| AlignmentText.PadLeft4 | sound_engine/src/com/gardner/soundengine/alignment/NoteAlignment.java:31 | "%4s" leaves a string of four or more characters alone and right-aligns a shorter one in four, with blanks in front |
| AlignmentText.JoinBlocks | sound_engine/src/com/gardner/soundengine/alignment/NoteAlignment.java:27-33 | joining four-character cells gives a line 4n long whose i-th block of four is cell i |
| AlignmentText.TableNamesShort | sound_engine/src/com/gardner/soundengine/common/NoteUtil.java:109 | every table name has at most three characters |
| AlignmentText.BottomCellWidth | sound_engine/src/com/gardner/soundengine/alignment/NoteAlignment.java:44-51 | every bottom cell is exactly four characters wide |
| AlignmentText.StringRepresentationLayout | sound_engine/src/com/gardner/soundengine/alignment/NoteAlignment.java:25-53 | with score names of at most four characters the text is two rows of 4n characters joined by a newline, block i of each row being pair i's cell |
| AlignmentText.CellLines | sound_engine/src/com/gardner/soundengine/alignment/NoteAlignment.java:43-52 | two rows of four-character cells joined by a newline are laid out block by block |
| AlignmentText.TopCellContents | sound_engine/src/com/gardner/soundengine/alignment/NoteAlignment.java:28-32 | a top cell is blank without a score note, otherwise the name right-aligned in four |
| AlignmentText.BottomCellContents | sound_engine/src/com/gardner/soundengine/alignment/NoteAlignment.java:45-50 | a bottom cell is blank without a played note, "null" exactly when its pitch is outside the table, and otherwise a padded nearest-note name |
| AlignmentText.PadShortNotNull | sound_engine/src/com/gardner/soundengine/alignment/NoteAlignment.java:48-49 | a padded name of at most three characters is never the text "null" |
| LegacyAlignment.GridCosts | sound_engine/src/com/gardner/soundengine/NoteAligner.java:200 | on column 0 every row is charged the add cost of note 0, since the source passes m (which is 0) |
| LegacyAlignment.LegacyGridCode | sound_engine/src/com/gardner/soundengine/NoteAligner.java:15-17 | every cell holds one of the legacy codes 1 or 2 |
| LegacyAlignment.FirstsAppend | sound_engine/src/com/gardner/soundengine/NoteAligner.java:67-74 | the first played-note pair and first score-note pair of a concatenation come from the front part when it has them |
| LegacyAlignment.AddedPairsFirsts | sound_engine/src/com/gardner/soundengine/NoteAligner.java:71-74 | the added drain holds no score note and starts with the first played note alone |
| LegacyAlignment.SkippedPairsFirst | sound_engine/src/com/gardner/soundengine/NoteAligner.java:67-70 | the skipped drain starts with the first score note alone |
| LegacyAlignment.LegacyTraceInterior | sound_engine/src/com/gardner/soundengine/NoteAligner.java:49-74 | from a cell inside the grid the legacy backtrace succeeds, keeps every note once and in order, and emits the first played note and the first score note unpaired |
| LegacyAlignment.LegacyBacktraceOutcome | sound_engine/src/com/gardner/soundengine/NoteAligner.java:40-76 | the legacy backtrace throws index-out-of-bounds exactly when one list is empty and the other does not hold exactly one note; otherwise it keeps every note once and in order |
| LegacyAlignment.FirstNotesUnpaired | sound_engine/src/com/gardner/soundengine/NoteAligner.java:49-74 | with notes on both sides, the first played note and the first score note always come back unpaired |
| LegacyAlignment.SingleNoteUnpaired | sound_engine/src/com/gardner/soundengine/NoteAligner.java:49-74 | a one-note score played as one note comes back as two one-sided pairs |
| LegacyAlignment.AddedReadAsAligned | sound_engine/src/com/gardner/soundengine/NoteAligner.java:15-17 | an interior cell whose move was an add is read back as an align, pairing notes the grid did not pair |
| LegacyAlignment.LegacyTempoSamplesConsecutive | sound_engine/src/com/gardner/soundengine/NoteAligner.java:82-107 | the legacy scan takes one sample per two consecutive full pairs, from the first onset to the second note's end |
| LegacyAlignment.LegacyGetAlignment | sound_engine/src/com/gardner/soundengine/NoteAligner.java:40-76 | fails with index-out-of-bounds exactly for the throwing sizes; otherwise the notes are unchanged and the pairs cover both note lists |
| LegacyAlignment.LegacyEstimateTempo | sound_engine/src/com/gardner/soundengine/NoteAligner.java:82-115 | fails exactly where the backtrace does; otherwise the tempo becomes the median of the onset-to-end samples once there are three |
| LegacyAlignment.LegacyUpdateAlignment | sound_engine/src/com/gardner/soundengine/NoteAligner.java:26-34 | appends the unseen notes, fails exactly for the throwing sizes of the new lists, and keeps the score and the base pitch |
| Spectrum.HammingWindow | sound_engine/src/com/gardner/soundengine/FFT.java:22-30 | n weights, weight i being 0.54 - 0.46 cos(2 pi i / (n - 1)) |
| Spectrum.WindowAfter | sound_engine/src/com/gardner/soundengine/FFT.java:36-42 | the cached weights change exactly when some sample is positive and the cache is missing or of the wrong length, and then become the window of the stretch's length |
| Spectrum.TransformInput | sound_engine/src/com/gardner/soundengine/FFT.java:35-49 | a positive sample becomes its weighted logarithm, any other 0, and every imaginary part is 0 |
| Spectrum.RectifiedInput | sound_engine/src/com/gardner/soundengine/SoundEngine.java:265-275 | the engines' unwindowed input is the windowed input with every weight 1 |
| Spectrum.DoFft | sound_engine/src/com/gardner/soundengine/FFT.java:32-76 | a negative length fails on allocation, a stretch outside the signal fails on the read, and otherwise (end - start) / 2 magnitudes come back |
| Spectrum.DoFftCacheTransparent | sound_engine/src/com/gardner/soundengine/FFT.java:32-76 | from a valid cache, doFft returns the magnitudes of the stretch under a fresh Hamming window and leaves a valid cache |
| Spectrum.Bins | sound_engine/src/com/gardner/soundengine/FFT.java:117-120 | bin i has index i, magnitude mags[i] and frequency sampleRate * i / numBins in Java int division |
| Spectrum.BandBins | sound_engine/src/com/gardner/soundengine/FFT.java:119-123 | the scan acts on exactly the bins inside the note table's band |
| Spectrum.SplitAtLows | sound_engine/src/com/gardner/soundengine/FFT.java:124-145 | the scan's stretches are one more than the low bins that close them |
| Spectrum.SplitAtLowsJoin | sound_engine/src/com/gardner/soundengine/FFT.java:124-145 | the stretches between low bins, rejoined with the low bins, give back the bins |
| Spectrum.SplitAtLowsHigh | sound_engine/src/com/gardner/soundengine/FFT.java:124-132 | every stretch between low bins holds only bins above the threshold |
| Spectrum.ArgMax | sound_engine/src/com/gardner/soundengine/FFT.java:159-166 | the index loop finds the first maximum above -1, or -1 when no magnitude exceeds -1 |
| Spectrum.InterpolationWithinHalfBin | sound_engine/src/com/gardner/soundengine/FFT.java:171-172 | around a first maximum the parabola's denominator is negative and its vertex lies within half a bin of the maximum |
| Spectrum.ComputePeakFrequency | sound_engine/src/com/gardner/soundengine/FFT.java:157-175 | fails exactly when no magnitude exceeds -1; a maximum at an end of the region gives that bin's frequency, an interior one the frequency of a refined bin within half a bin of it |
| Spectrum.RefineAll | sound_engine/src/com/gardner/soundengine/FFT.java:136-139 | one peak per region in order, failing exactly when some region's refinement fails |
| Spectrum.FindPeaksRegions | sound_engine/src/com/gardner/soundengine/FFT.java:105-148 | the peaks are the refinements of the regions of two or more bins lying strictly between two in-band low bins; with a threshold of at least -1 the scan never fails |
| Spectrum.RefineRegion | sound_engine/src/com/gardner/soundengine/FFT.java:136-139 | a region the scan keeps is all above a threshold of at least -1, so its refinement succeeds |
| Spectrum.FindPeaksPositive | sound_engine/src/com/gardner/soundengine/FFT.java:105-148 | with a positive sample rate and lowest note, every peak found is a positive frequency |
| Spectrum.ClosestPeak | sound_engine/src/com/gardner/soundengine/FFT.java:83-92 | 0.0 without peaks, otherwise the earliest peak nearest the likely pitch |
| Spectrum.GetPeakCloseToPitch | sound_engine/src/com/gardner/soundengine/FFT.java:81-93 | the scan at threshold 20 succeeds and the result is 0.0 without peaks or the earliest peak nearest the likely pitch |
| Harmonics.EmptySlots | sound_engine/src/com/gardner/soundengine/SoundEngine.java:362-364 | both arrays hold 15 slots |
| Harmonics.Place | sound_engine/src/com/gardner/soundengine/SoundEngine.java:366-384 | a peak past slot 14 is passed over, a negative slot throws, and no slot other than the peak's own changes |
| Harmonics.PlaceAll | sound_engine/src/com/gardner/soundengine/SoundEngine.java:366-385 | the slotting loop keeps 15 slots and can only fail with index-out-of-bounds |
| Harmonics.PlaceAllFailure | sound_engine/src/com/gardner/soundengine/SoundEngine.java:366-385 | the loop fails exactly when some peak falls in a negative slot |
| Harmonics.Best | sound_engine/src/com/gardner/soundengine/SoundEngine.java:375-384 | the peak kept for a slot, when there is one, falls in that slot |
| Harmonics.BestSpec | sound_engine/src/com/gardner/soundengine/SoundEngine.java:375-384 | no peak is kept exactly when none falls in the slot, otherwise the kept one is the earliest closest to the multiple |
| Harmonics.BestPeakUnique | sound_engine/src/com/gardner/soundengine/SoundEngine.java:375-384 | the best peak of a slot is unique |
| Harmonics.PlaceAllSlots | sound_engine/src/com/gardner/soundengine/SoundEngine.java:366-385 | with no zero peak, each slot ends holding its best peak and that peak's distance, or 0.0 when no peak falls in it |
| Harmonics.SpreadPositive | sound_engine/src/com/gardner/soundengine/SoundEngine.java:405 | with two or more filled slots the denominator of the slope is positive |
| Harmonics.ProportionalFit | sound_engine/src/com/gardner/soundengine/SoundEngine.java:386-406 | when every filled slot h holds c * h and slot 1 is filled, the fit returns c |
| Harmonics.Candidates | sound_engine/src/com/gardner/soundengine/SoundEngine.java:358-361 | the first peak is dropped exactly when there is a second one and the second divided by the first exceeds 4 |
| Harmonics.FrequencyFromPeaks | sound_engine/src/com/gardner/soundengine/SoundEngine.java:354-409 | 0.0 without peaks, and only index-out-of-bounds as a failure |
| Harmonics.FrequencyFromPeaksFailure | sound_engine/src/com/gardner/soundengine/SoundEngine.java:366-374 | the computation fails exactly when a candidate falls in a negative slot of the first |
| Harmonics.PositiveSlot | sound_engine/src/com/gardner/soundengine/SoundEngine.java:367-370 | a positive peak never lands in a negative slot, and the base itself is slot 1 at distance 0 |
| Harmonics.PositiveSlots | sound_engine/src/com/gardner/soundengine/SoundEngine.java:365-385 | with positive peaks the slotting never fails, slot 1 holds the first peak and every slot its best peak |
| Harmonics.FrequencyFromPeaksSlots | sound_engine/src/com/gardner/soundengine/SoundEngine.java:354-409 | with positive candidates the result is the fit over slots holding each slot's best peak, slot 1 holding the first candidate |
| Harmonics.HarmonicSlot | sound_engine/src/com/gardner/soundengine/SoundEngine.java:367-370 | a whole multiple k of a positive base lands in slot k exactly |
| Harmonics.CleanSeriesGivesFundamental | sound_engine/src/com/gardner/soundengine/SoundEngine.java:354-409 | when every candidate is a whole multiple of the first, the frequency computed is the first candidate |
| Harmonics.CleanFit | sound_engine/src/com/gardner/soundengine/SoundEngine.java:365-406 | the fit over the slots of a clean harmonic series is its first peak |
| SoundEngine.IntDiv | sound_engine/src/com/gardner/soundengine/SoundEngine.java:55 | Java int division truncates toward zero: the quotient times the divisor lies within one divisor of the dividend on the side toward zero, for both signs of the dividend and of the divisor |
| SoundEngine.New | sound_engine/src/com/gardner/soundengine/SoundEngine.java:47-73 | fails with division by zero for no bytes per frame and with negative array size for a negative size; otherwise, for a positive bytes-per-frame, the data holds bufferSize / bytesPerFrame samples; every array starts zeroed, at A4 = 440 and time step 0 |
| SoundEngine.SetBasePitch | sound_engine/src/com/gardner/soundengine/SoundEngine.java:427-429 | only the base pitch changes, and its table starts at freq / 16 |
| SoundEngine.CurrentClosestNote | sound_engine/src/com/gardner/soundengine/SoundEngine.java:434-436 | null exactly outside the table's range, otherwise the name of a nearest note to the current frequency |
| SoundEngine.Decoded | sound_engine/src/com/gardner/soundengine/SoundEngine.java:95-110 | at 8 bits each byte is copied and the copy fails exactly when the buffer outruns the data; at 16 bits sample i is the short of bytes 2i, 2i + 1 and it fails exactly when the buffer is too short; any other bit rate throws exactly when there is data to fill |
| SoundEngine.CopyBufferToData | sound_engine/src/com/gardner/soundengine/SoundEngine.java:95-110 | the copy loops leave exactly the decoded data, or the exception |
| SoundEngine.ShortBytes | sound_engine/src/com/gardner/soundengine/SoundEngine.java:101-104 | writing n shorts takes 2n bytes |
| SoundEngine.DecodeShortBytes | sound_engine/src/com/gardner/soundengine/SoundEngine.java:101-104 | a 16-bit buffer decodes to the shorts it was written from |
| SoundEngine.ShortBytesOfDecoded | sound_engine/src/com/gardner/soundengine/SoundEngine.java:101-104 | a buffer of two bytes per sample decodes to shorts and is the writing of what it decodes to |
| SoundEngine.EightBitSamplesCentred | sound_engine/src/com/gardner/soundengine/SoundEngine.java:96-99 | an unsigned 8-bit file read through the file microphone lands in data as each sample minus 128 |
| SoundEngine.Interleave | sound_engine/src/com/gardner/soundengine/SoundEngine.java:305-306 | entry 2i is bin i's frequency and entry 2i + 1 its magnitude |
| SoundEngine.CurrentMags | sound_engine/src/com/gardner/soundengine/SoundEngine.java:293-306 | for each of the dataSize / 2 bins, its frequency sampleRate * i / dataSize and its magnitude |
| SoundEngine.AnalyzePitch | sound_engine/src/com/gardner/soundengine/SoundEngine.java:256-263 | throws exactly where the peak scan or the slotting does; otherwise the frequency is the harmonic fit over the peaks and currentMags the bins |
| SoundEngine.AnalyzePitchSucceeds | sound_engine/src/com/gardner/soundengine/SoundEngine.java:290-409 | with a positive sample rate and base pitch and a minimum magnitude of at least -1, analyzePitch never throws, every peak is positive, and the frequency is 0.0 without peaks or the fit over the candidates' slots |
| SoundEngine.SlideWindow | sound_engine/src/com/gardner/soundengine/SoundEngine.java:207-214 | moving the window one sample on adds the new sample and drops the oldest |
| SoundEngine.PeakStep | sound_engine/src/com/gardner/soundengine/SoundEngine.java:225-228 | the running maximum above 1.5 stays the first maximum after one more derivative |
| SoundEngine.DipStep | sound_engine/src/com/gardner/soundengine/SoundEngine.java:229-232 | the running minimum below -1.5 stays the first minimum after one more derivative |
| SoundEngine.WindowStart | sound_engine/src/com/gardner/soundengine/SoundEngine.java:199-201 | the first loop sums the adjusted last 200 samples of the previous buffer |
| SoundEngine.SlideSum | sound_engine/src/com/gardner/soundengine/SoundEngine.java:208-214 | one slide gives the sum of the 200 samples ending at sample i, reaching back into the previous buffer |
| SoundEngine.Earlier | sound_engine/src/com/gardner/soundengine/SoundEngine.java:216-221 | the average 1500 samples back, from this buffer's averages or the previous buffer's |
| SoundEngine.FindNoteOnsets | sound_engine/src/com/gardner/soundengine/SoundEngine.java:191-242 | fails exactly when a buffer holds fewer than 1500 samples; otherwise average i is the window mean ending at sample i, its derivative is the difference from the average 1500 samples back, and begin and end are the first maximum above 1.5 and the first minimum below -1.5 |
| SoundEngine.SampleMic | sound_engine/src/com/gardner/soundengine/SoundEngine.java:79-93 | the previous data and averages are saved and the buffer decoded; only a full buffer advances the time step, runs analyzePitch then findNoteOnsets, and returns true; failures are exactly those of the steps it ran |
| LegacyEngine.New | sound_engine/src/main/java/com/gardner/soundengine/SoundEngine.java:22-34 | fails exactly for a negative buffer size; otherwise a zeroed buffer of that size, bufferSize / 2 zero magnitudes, frequency 0.0 and A4 = 440 |
| LegacyEngine.ProcessSample | sound_engine/src/main/java/com/gardner/soundengine/SoundEngine.java:73-180 | fails exactly where the peak scan or the slotting does; otherwise only currentFrequency (the harmonic fit) and currentMags (bin frequencies and magnitudes, interleaved) change |
| LegacyEngine.ProcessSampleIsAnalyzePitch | sound_engine/src/main/java/com/gardner/soundengine/SoundEngine.java:73-180 | the inline processSample computes what the newer engine's analyzePitch computes on the same samples, failure included |
| LegacyEngine.ProcessSampleSucceeds | sound_engine/src/main/java/com/gardner/soundengine/SoundEngine.java:73-180 | with a positive sample rate and base pitch processSample never throws, every peak is positive, and the frequency is 0.0 without peaks or the fit over the candidates' slots |
| LegacyEngine.SampleMic | sound_engine/src/main/java/com/gardner/soundengine/SoundEngine.java:40-47 | returns true exactly for a full buffer, which is then processed; a short read only leaves the bytes in the buffer |
| Microphone.Initialize | sound_engine/src/com/gardner/soundengine/microphone/LinuxFileMicrophone.java:22-37 | the bytes per frame are the bit rate divided by 8, truncated toward zero |
| Microphone.Shift | sound_engine/src/com/gardner/soundengine/microphone/LinuxFileMicrophone.java:68-72 | the rewrite adds or subtracts 128 modulo 256, which agree |
| Microphone.ShiftInvolution | sound_engine/src/com/gardner/soundengine/microphone/LinuxFileMicrophone.java:68-72 | rewriting twice gives the byte back |
| Microphone.ShiftInjective | sound_engine/src/com/gardner/soundengine/microphone/LinuxFileMicrophone.java:68-72 | different bytes are rewritten to different bytes |
| Microphone.ShiftCentresUnsigned | sound_engine/src/com/gardner/soundengine/microphone/LinuxFileMicrophone.java:62-72 | a byte holding the unsigned sample u is rewritten to u - 128 |
| Microphone.ShiftAll | sound_engine/src/com/gardner/soundengine/microphone/LinuxFileMicrophone.java:67-73 | every byte of the buffer is rewritten |
| Microphone.Sample | sound_engine/src/com/gardner/soundengine/microphone/LinuxFileMicrophone.java:59-79 | returns the count read; at 8 bits every byte of the buffer is rewritten, at other bit rates the buffer is left as read |
| Microphone.SampleUndone | sound_engine/src/com/gardner/soundengine/microphone/LinuxFileMicrophone.java:66-74 | rewriting an 8-bit sample's buffer again gives back the bytes read |
| ScoreFiles.Pieces | sound_engine/src/com/gardner/soundengine/common/TranscribedNote.java:65 | splitting at ": " yields at least one piece |
| ScoreFiles.PiecesJoin | sound_engine/src/com/gardner/soundengine/common/TranscribedNote.java:65 | rejoining the pieces with ": " gives the line back |
| ScoreFiles.JoinPieces | sound_engine/src/com/gardner/soundengine/common/TranscribedNote.java:65 | splitting a join of separator-free pieces gives the pieces back |
| ScoreFiles.DropTrailingEmpty | sound_engine/src/com/gardner/soundengine/common/TranscribedNote.java:65 | the split keeps a prefix of the pieces that ends in a non-empty piece, and drops only empty pieces |
| ScoreFiles.FieldSpec | sound_engine/src/com/gardner/soundengine/common/TranscribedNote.java:65 | the field is the second piece, and exists exactly when some piece after the first is non-empty; otherwise the read fails with index-out-of-bounds |
| ScoreFiles.FieldOfKeyValue | sound_engine/src/com/gardner/soundengine/MusicNote.java:50 | "key: value" reads as the value, and throws when the value is empty |
| ScoreFiles.LineValue | sound_engine/src/com/gardner/soundengine/MusicNote.java:49-52 | a key line's value is its field, parsed for a numeric key; it fails on a missing field or an unparsable number, with the matching error |
| ScoreFiles.Step | sound_engine/src/com/gardner/soundengine/common/TranscribedNote.java:62-70 | one line adds a note exactly when it is empty, and throws exactly when it is a key line whose value cannot be read |
| ScoreFiles.ScanLines | sound_engine/src/com/gardner/soundengine/common/TranscribedNote.java:61-71 | every note read has one value per key, and a failure is a bad field or a bad number |
| ScoreFiles.ScanFailure | sound_engine/src/com/gardner/soundengine/common/TranscribedNote.java:61-71 | reading fails exactly when some line is bad, with the first bad line's error |
| ScoreFiles.ScanCount | sound_engine/src/com/gardner/soundengine/common/TranscribedNote.java:62-63 | one note per empty line, and no other |
| ScoreFiles.ScanValues | sound_engine/src/com/gardner/soundengine/common/TranscribedNote.java:64-69 | after a read, every key holds the value of the last line starting with it, or its default |
| ScoreFiles.ScanBlockAt | sound_engine/src/com/gardner/soundengine/common/TranscribedNote.java:62-63 | the empty line j adds note number (empty lines before j) built from the values in force after the lines before it |
| ScoreFiles.ScanTrailing | sound_engine/src/com/gardner/soundengine/common/TranscribedNote.java:61-71 | lines after the last empty line add no note |
| ScoreFiles.ReadTranscribedNotes | sound_engine/src/com/gardner/soundengine/common/TranscribedNote.java:53-76 | a failed read is a bad field or a bad number |
| ScoreFiles.ReadTranscribedNotesSpec | sound_engine/src/com/gardner/soundengine/common/TranscribedNote.java:53-76 | fails exactly on a bad line; otherwise one note per empty line, in order, each with windows -1 and the last Pitch, Onset and End before it (0.0 when none) |
| ScoreFiles.TranscribedNoteAt | sound_engine/src/com/gardner/soundengine/common/TranscribedNote.java:62-70 | the note the empty line j adds holds the last Pitch, Onset and End values before it |
| ScoreFiles.ReadMusicNotes | sound_engine/src/com/gardner/soundengine/MusicNote.java:39-59 | a failed read is a bad field or a bad number |
| ScoreFiles.ReadMusicNotesSpec | sound_engine/src/com/gardner/soundengine/MusicNote.java:39-59 | fails exactly on a bad line; otherwise one note per empty line, in order, each with the last Name (null when none) and Beats (0.0 when none) before it |
| ScoreFiles.MusicNoteAt | sound_engine/src/com/gardner/soundengine/MusicNote.java:47-54 | the note the empty line j adds holds the last Name and Beats values before it |
| ScoreFiles.ReadSheetMusic | sound_engine/src/com/gardner/soundengine/SheetMusic.java:29-49 | the score holds exactly the notes MusicNote's reader gives for the same lines, and fails exactly when that reader fails |
| ScoreFiles.TranscribedTrailingDropped | sound_engine/src/com/gardner/soundengine/common/TranscribedNote.java:61-71 | lines after the last empty line of a transcription file are lost |
| ScoreFiles.MusicTrailingDropped | sound_engine/src/com/gardner/soundengine/MusicNote.java:47-57 | lines after the last empty line of a score file are lost |

## Left out

- Floating point: doubles are reals. IEEE rounding, NaN and infinities are not modelled, so a division by zero is a total `Quot` returning 0 rather than an infinity.
- Integer width: int overflow of products such as `sampleRate * i` and the saturation of the `(int)` cast are not modelled.
- `Math.log`, `Math.sqrt`, `Math.cos` and `DoubleFFT_1D.complexForward` are parameters (`Spectrum.Numerics`). The constructor's transform objects, the `n < 1` check inside `DoubleFFT_1D`, and the speed-only choice among the three transform objects in `FFT.doFft` are not modelled.
- File and stream I/O: each reader takes the file's lines, and `Microphone.Sample` takes the count and the bytes `stream.read` returned. IOException, `AudioSystem` and `stop` are left out.
- Printing and the matrices dump (`printMatrices`, the `System.out` lines in `sampleMic`, `findNoteOnsets` and `getStringRepresentation`) are left out, as are the `testing` arrays.
- `findNoteOnsetsWithSTFT` is left out. It is never called, because the call in `processSample` is commented out.
- Trivial accessors are left out: the getters, `start`, and `SheetMusic.getNotes`, `NoteAlignment.getPairs`, `MusicNote.getName`/`getBeats`. They are the datatype fields.
- State written before an exception is not modelled: a failing operation returns only the error.
- The legacy engine's `setBasePitch`, `getCurrentClosestNote`, `getNoteFrequency`, `findClosestNote` and `initializeNoteFrequencies` are copies of the table code. `NoteTable` models that code once.
- LegacyAlignment.GridCosts: the legacy `NoteAligner` calls the `NoteUtil` of its own package without an import, and that class is not part of this model. Its table is taken to be identical to the common `NoteUtil` table, so the legacy costs use `Alignment.NotePitch`.
- The static, lazily built NoteUtil table is modelled as the table built from the base pitch in force (`NoteTable.Build`).
- SoundEngine.CurrentClosestNote: uses the corrected search `NoteTable.ClosestNote`, because the search as written never returns on a frequency exactly midway between two notes (see Findings). `NoteTable.ClosestNoteAgrees` shows the two agree everywhere else. The base pitch is required to be positive, because the search on a table that does not increase is not modelled.
- AlignmentText.BottomCellContents: the rendering uses the corrected search as well, and requires a positive base pitch for the same reason.
- NoteTable.FindClosestNote: the as-written search is stated only for frequencies not midway between two notes (`NotEquidistant`), and only on an increasing table, that is, for a positive base pitch; Java runs the search on any table that `setBasePitch` builds, including one from a zero or negative base. On the midpoints, `NoteTable.EquidistantLoopsForever` shows that it does not return. The same holds for NoteTable.SearchFrom and NoteTable.FindClosestNoteExact.
- SoundEngine.FindNoteOnsets: a buffer of fewer than 200 samples fails with the same index-out-of-bounds error as one of fewer than 1500, without modelling which loop throws first.
- Alignment.GetAlignment: getAlignment and estimateTempo call each other. The model breaks the cycle with the `computed` flag, which plays the part of `alignment != null`.
- Harmonics.FrequencyFromPeaks: the success value is stated through the fit lemmas (`FrequencyFromPeaksSlots`, `CleanSeriesGivesFundamental`), not in the function's own ensures.
- Spectrum.FindPeaks: the threshold is compared as a real. Java compares an int threshold with a double, which gives the same result.

## Findings

| source | as written | input that shows it | evidently intended | confidence | as-written member | corrected member |
|---|---|---|---|---|---|---|
| sound_engine/src/com/gardner/soundengine/common/NoteUtil.java:70-88 | the search returns only on a strictly nearer neighbour or an exact hit | a frequency exactly midway between two neighbouring table notes, e.g. (G#4 + A4) / 2 | return one of the two nearest notes (say the lower) | not executed; follows from the strict comparisons on exact reals | NoteTable.EquidistantLoopsForever | NoteTable.ClosestNote |
| sound_engine/src/com/gardner/soundengine/NoteAligner.java:49 | the backtrace stops as soon as either index reaches 0, before reading row 0 or column 0 | one score note and one played note: the corner cell aligns, yet two one-sided pairs come back | follow the grid while both indices are at least 0, as the newer aligner does | not executed; high | LegacyAlignment.SingleNoteUnpaired | Alignment.SingleNotePaired |
| sound_engine/src/com/gardner/soundengine/NoteAligner.java:15-17 | TRANSCRIBED_NOTE_ADDED and NOTES_ALIGNED are both 2 | any interior cell whose cheapest move is an add is read back as an align | three distinct codes, as in the newer aligner (1, 2, 3) | not executed; high | LegacyAlignment.AddedReadAsAligned | Alignment.TraceFollowsMove |
