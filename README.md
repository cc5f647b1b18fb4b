# C3POa consensus caller: a verified model of its core

C3POa rebuilds R2C2 nanopore reads. An R2C2 read holds several tandem
copies of one insert, joined by a splint whose first position is the
"seed". The program works in these steps:

1. Align each read with itself (water), in 1000-base windows on both
   sides of the seed.
2. Sum the alignment scores along each diagonal.
3. Smooth the score curve and pick its peaks: the repeat boundaries.
4. Merge peaks closer than 200 bases and take the median of the gaps,
   rounded to 50.
5. Choose a branch:
   - several repeats: cut the read into subreads, align them (poa) and
     polish a draft (minimap2 and racon);
   - a single peak: merge the two overlapping halves of the read;
   - otherwise: drop the read.

It also reads its FASTQ input, a FASTA reader for the tools' outputs, a
tab-separated config file naming the external programs, and water's
pairwise report.

The model covers `c3poa_mod/C3POa_mod.py`, one module per concern:

| file | module | covers |
|---|---|---|
| `wrappers.dfy` | `Wrappers` | `Option` and `Result` |
| `text.dfy` | `Text` | the Python string behaviour the code relies on: `rstrip`, `strip`, `split()`, `split(sep)`, `startswith`, `in`, `upper`, `str(int)`, `int(str)` |
| `lists.dfy` | `Lists` | Python slicing (negative and out-of-range bounds), `sorted(list(set(...)))`, sorting for the median |
| `dicts.dfy` | `Dicts` | Python's insertion-ordered `dict` as a list of pairs |
| `bases.dfy` | `Bases` | `revComp`, `rounding` |
| `diagonals.dfy` | `Diagonals` | `split_SW`, `run_water`, `parse_file` |
| `smoothing.dfy` | `Smoothing` | `savitzky_golay`: checks and peak picker; the filter is a parameter |
| `peaks.dfy` | `PeakCalling` | `callPeaks` |
| `segments.dfy` | `Segments` | `split_read` |
| `fasta.dfy` | `FastaReader` | `read_fasta` |
| `fastq.dfy` | `FastqReader` | `read_fastq_file` |
| `config.dfy` | `ConfigReading` | `configReader` |
| `water.dfy` | `WaterParsing` | `water_parser` |
| `consensus.dfy` | `Consensus` | `determine_consensus` |
| `analysis.dfy` | `Analysis` | `analyze_reads` |

How the model is built:

- Code that updates state step by step is a method with loops, proved
  equal to a specification function. The properties are then proved as
  lemmas about that function. Examples: the parsers, the merge and median
  loops, and `split_read`'s emission loop.
- `diag_dict`/`diag_set` form a class (`Diagonals.DiagonalTable`) whose
  `ParseFile` updates them in place.
- `callPeaks` clamps the caller's score lists in place, so they are
  arrays.
- Files are given as their sequence of lines.
- Written files are returned as sequences of records.
- The external programs are function parameters (water, poa, minimap2
  with racon, consensus.py), and so is the smoothing filter.
- Python exceptions that end a function become error values. For
  example, the `IndexError` of `split_read` with no peaks is
  `Segments.NoPeaks`, the unbound `split2` with one peak is
  `Segments.SinglePeak`, and a config line without a tab is
  `ConfigReading.MissingTab`.

Where the program's own description of these steps differs from its
code, the model follows the code:

- **Merge.** The merge pass compares each sorted peak with the previous
  *sorted* peak, whether or not that one was kept. So a chain 0, 150, 300
  keeps only 0 (`PeakCalling.MergedChain`).
- **Zero-repeat result.** It is
  `seq[seed:after[0]] + merged + seq[before[1]:seed]`: the stretch from
  the seed onward comes first and the stretch before the seed last.
- **Seed.** `read_fastq_file` gives every read the seed 40; it does not
  parse one from the header.
- **Quality header.** The `+` line is never checked. Any third line of a
  record sets `lastPlus`.
- **Failures.** An exception inside one read is not caught: `analyze_reads`
  has no `try`, so it ends the whole run and no later read is written.
  Examples are a base outside revComp's table, water_parser's
  `IndexError`, the missing 'consensus' record of the zero-repeat
  branch, and an unfinished FASTQ entry that does not unpack
  (`Analysis.FoldStopsAfter`, `Analysis.FoldFailure`).

## Model

| member | source | states |
|---|---|---|
| Bases.RevComp | c3poa_mod/C3POa_mod.py:134-137 | succeeds exactly when every character is one of A, C, G, T, N, -; then the result is as long as the input and its character at \|s\|-1-i is the complement of s[i]; otherwise the error is a character outside the table, all characters before it being in the table |
| Bases.ComplementInvolution | c3poa_mod/C3POa_mod.py:136 | the complement table is an involution on its keys |
| Bases.RevCompInvolution | c3poa_mod/C3POa_mod.py:134-137 | revComp of revComp gives the string back, for every string over the alphabet |
| Bases.Rounding | c3poa_mod/C3POa_mod.py:223-225 | the result is a multiple of base within base/2 of x, and on an exact half the quotient is even (Python's round) |
| Bases.RoundingIsNearest | c3poa_mod/C3POa_mod.py:223-225 | no multiple of base is closer to x than rounding(x, base) |
| Bases.RoundingTies | c3poa_mod/C3POa_mod.py:223-225 | rounding to 50 sends 25 to 0, 75 to 100, 125 to 100, -25 to 0 and -75 to -100 |
| Lists.Slice | c3poa_mod/C3POa_mod.py:157 | Python's `s[i:j]`: both bounds normalised by SliceIndex, the subsequence between them when the start is before the stop and empty otherwise; the plain subsequence for in-range bounds |
| Lists.SliceConcat | c3poa_mod/C3POa_mod.py:154-181 | adjacent in-range slices concatenate to the covering slice |
| Lists.SortedSet | c3poa_mod/C3POa_mod.py:416 | sorted(list(set)) is strictly increasing, has exactly the set's elements and the set's size |
| Lists.StrictlyIncreasingUnique | c3poa_mod/C3POa_mod.py:416 | any two strictly increasing lists with the same elements are equal |
| Lists.Insert | c3poa_mod/C3POa_mod.py:433 | inserting into a sorted list keeps it sorted and adds exactly the element |
| Lists.Sort | c3poa_mod/C3POa_mod.py:433 | the sorted list is sorted and a permutation of the input |
| Lists.SortedUnique | c3poa_mod/C3POa_mod.py:433 | two sorted permutations of each other are equal |
| Dicts.Assign | c3poa_mod/C3POa_mod.py:83 | after d[k] = v, k maps to v, every other key keeps its value, and the keys are the old ones plus k |
| Dicts.AssignUnique | c3poa_mod/C3POa_mod.py:205-206 | assignment keeps keys distinct |
| Dicts.AssignNew | c3poa_mod/C3POa_mod.py:205-206 | assigning a key not yet present appends the pair at the end (insertion order) |
| Dicts.AssignExisting | c3poa_mod/C3POa_mod.py:83 | assigning a key already present replaces its pair where it stands: same length, every other pair in its place |
| Dicts.LookupIn | c3poa_mod/C3POa_mod.py:83 | a key has a value exactly when it is among the keys |
| Dicts.LookupAt | c3poa_mod/C3POa_mod.py:205-206 | with distinct keys, the key at position i maps to the value at i |
| Text.RStrip | c3poa_mod/C3POa_mod.py:192 | rstrip removes exactly the trailing whitespace: the result is a prefix, what it drops is all whitespace, and it does not end in whitespace |
| Text.LStrip | c3poa_mod/C3POa_mod.py:449 | the left half of strip drops only whitespace and leaves text that does not start with whitespace |
| Text.LStripSuffix | c3poa_mod/C3POa_mod.py:449 | what lstrip keeps is the tail of the string, so it drops exactly the leading whitespace |
| Text.StripUnchanged | c3poa_mod/C3POa_mod.py:449 | text without whitespace at either end is its own strip and rstrip |
| Text.TokenLength | c3poa_mod/C3POa_mod.py:452 | the first word runs to the first whitespace or the end |
| Text.Split | c3poa_mod/C3POa_mod.py:80 | split() gives non-empty words without whitespace, and no word exactly for a blank line |
| Text.SplitCovers | c3poa_mod/C3POa_mod.py:80 | the words of split(), joined, are exactly the non-whitespace characters of the line, in order |
| Text.SplitSpaced | c3poa_mod/C3POa_mod.py:452 | words joined by single spaces split back into the same words |
| Text.SplitWord | c3poa_mod/C3POa_mod.py:452 | a single word splits into itself |
| Text.SplitWordThen | c3poa_mod/C3POa_mod.py:452 | a word, a space and the rest split into the word followed by the rest's words |
| Text.TokenLengthPrefix | c3poa_mod/C3POa_mod.py:452 | a word followed by whitespace is the first token |
| Text.SplitOn | c3poa_mod/C3POa_mod.py:82 | split('\t') gives at least one piece, no piece holds a tab, and joining with tabs restores the line |
| Text.IndexOf | c3poa_mod/C3POa_mod.py:82 | the first occurrence of a character |
| Text.Upper | c3poa_mod/C3POa_mod.py:199 | upper keeps the length and upper-cases each character |
| Text.NotContains | c3poa_mod/C3POa_mod.py:690 | a string without a character does not contain it as a substring |
| Text.ParseInt | c3poa_mod/C3POa_mod.py:455 | int() never accepts the empty string |
| Text.ParseIntPieces | c3poa_mod/C3POa_mod.py:455 | int() accepts a literal exactly when, after its optional sign, every piece between underscores is a non-empty run of digits; it then reads as all the pieces' digits run together, negated after a '-' |
| Text.ParseIntJoin | c3poa_mod/C3POa_mod.py:455 | a sign ('', '-' or '+') followed by non-empty digit runs joined by single underscores reads as the runs' digits run together, negated after a '-' |
| Text.ParseIntValue | c3poa_mod/C3POa_mod.py:455 | a plain digit string, with or without a sign, reads as its decimal value; a grouped literal reads as the value of its digits, negated after a '-' |
| Text.ParseIntGrouped | c3poa_mod/C3POa_mod.py:455 | int('1_000') is 1000 |
| Text.ParseIntRefused | c3poa_mod/C3POa_mod.py:455 | int() refuses a doubled, leading or trailing underscore, a bare sign and the empty string |
| Text.DigitChar | c3poa_mod/C3POa_mod.py:947 | a digit below 10 becomes its character |
| Text.NatToStringDigits | c3poa_mod/C3POa_mod.py:947 | str(n) is a non-empty string of digits whose value is n |
| Text.ParseIntToString | c3poa_mod/C3POa_mod.py:455 | int(str(i)) is i for every integer |
| Text.NatToStringInjective | c3poa_mod/C3POa_mod.py:947 | str is injective on naturals: two naturals print the same exactly when they are equal |
| Text.IntToStringPlain | c3poa_mod/C3POa_mod.py:452-456 | str(i) is non-empty without whitespace or '\|', so it stays one word of a row |
| Lists.SliceIndex | c3poa_mod/C3POa_mod.py:157 | a slice bound is normalised into 0..len: unchanged in range, a negative bound counts from the end and is clamped at 0, a bound past the end becomes len |
| Dicts.Keys | c3poa_mod/C3POa_mod.py:88 | one key per entry |
| Dicts.Values | c3poa_mod/C3POa_mod.py:740-741 | one value per entry |
| Diagonals.ScoreAtConcat | c3poa_mod/C3POa_mod.py:540-549 | the score summed at a position over two record lists is the sum over each |
| Diagonals.ScoreAtRemove | c3poa_mod/C3POa_mod.py:540-549 | taking one record out removes exactly its contribution |
| Diagonals.ScoreAtPermutation | c3poa_mod/C3POa_mod.py:540-549 | the summed score does not depend on the records' order |
| Diagonals.WindowsFrom | c3poa_mod/C3POa_mod.py:476-504 | the windows start at 0, 1000, 2000, ... below len(seq); seq1 is seq[step:min(len, step+1000)], seq2 is seq[:1000], and only the window at step 0 scores the main diagonal; they run to the end of the read |
| Diagonals.WindowsTile | c3poa_mod/C3POa_mod.py:502-504 | the seq1 slices of the windows, in order, concatenate to the read |
| Diagonals.AddRecordsSum | c3poa_mod/C3POa_mod.py:540-549 | after a window's records the keys are the old keys plus every \|offset+step\|, and each position has gained exactly the sum of the scores reported for it |
| Diagonals.AddRecordsPermutation | c3poa_mod/C3POa_mod.py:540-549 | any reordering of a window's records gives the same dictionary |
| Diagonals.AddRecordsCommute | c3poa_mod/C3POa_mod.py:486-487 | two windows folded in either order give the same dictionary |
| Diagonals.DiagonalTable.constructor | c3poa_mod/C3POa_mod.py:501 | diag_dict and diag_set start empty |
| Diagonals.DiagonalTable.ParseFile | c3poa_mod/C3POa_mod.py:531-549 | folds the records into diag_dict in place (equal to AddRecords of the old dictionary) and keeps diag_set equal to its keys |
| Diagonals.Emit | c3poa_mod/C3POa_mod.py:525-529 | one score per distinct position |
| Diagonals.EmitAscending | c3poa_mod/C3POa_mod.py:525-529 | the scores follow the positions in ascending order: for any strictly increasing listing of the positions, entry k is the score of the k-th position |
| Diagonals.RunWindows | c3poa_mod/C3POa_mod.py:502-523 | one fresh table threaded through every window; its dictionary is the fold of all windows' records |
| Diagonals.EmitScores | c3poa_mod/C3POa_mod.py:525-529 | the emission loop returns Emit of the dictionary |
| Diagonals.SplitSW | c3poa_mod/C3POa_mod.py:491-529 | split_SW returns Emit of the fold over its windows (1000-base windows when step is set, the whole read against itself otherwise) |
| Smoothing.CheckWindow | c3poa_mod/C3POa_mod.py:305-312 | accepts exactly an odd \|window\| of at least \|order\|+2 and then returns both made non-negative; the first error is raised exactly when the window is even |
| Smoothing.CallPeaksWindowsValid | c3poa_mod/C3POa_mod.py:375-380 | the calls (51,2), (71,2) and (51,1) pass, while (50,2) and (3,2) fail with their respective errors |
| Smoothing.ClampBelowOne | c3poa_mod/C3POa_mod.py:327-333 | every value below 1 becomes exactly 1 and every other value is unchanged, so every value is at least 1 afterwards |
| Smoothing.Clamped | c3poa_mod/C3POa_mod.py:327-333 | the clamped curve has the curve's length |
| Smoothing.Diff | c3poa_mod/C3POa_mod.py:337 | np.diff has one element less than a non-empty input and none for an empty one |
| Smoothing.PeaksBelow | c3poa_mod/C3POa_mod.py:339-348 | the picked indices below n are exactly those with a rise followed by 44 falls, ascending and at least 45 apart |
| Smoothing.PeaksApart | c3poa_mod/C3POa_mod.py:346-347 | two indices satisfying the peak rule lie at least 45 apart |
| Smoothing.FindPeaks | c3poa_mod/C3POa_mod.py:335-349 | the loop reports i exactly when slopes[i] > 0 and slopes[i+1..i+44] < 0 and i < len(slopes) - 50 (so nothing when len(slopes) <= 50), ascending and 45 apart; the `i > len(slopes) - la` branch is never entered |
| Smoothing.SavitzkyGolay | c3poa_mod/C3POa_mod.py:292-349 | fails with the window check's error when that fails, then with the IndexError of `y[0]` on an empty signal, and only then; otherwise returns the filter's curve or the peaks picked from it |
| PeakCalling.NoiseFloorIsMax | c3poa_mod/C3POa_mod.py:364-368 | the noise level is the largest of 0 and the scores examined |
| PeakCalling.NoiseClamped | c3poa_mod/C3POa_mod.py:364-373 | the clamp keeps the list's length |
| PeakCalling.NoiseClampedWindow | c3poa_mod/C3POa_mod.py:364-373 | on a list at least as long as the noise window, every score of the window becomes 1, every score is 1 or unchanged, and every score that is not 1 is above the noise level; a score above the threshold (1.25 times the noise level forward, 1.15 reverse) is kept, one at or below it becomes 1, and a score ends as 1 exactly when it is in the window, at or below the threshold, or already 1 |
| PeakCalling.NoiseClamp | c3poa_mod/C3POa_mod.py:364-373 | clamps the caller's array in place: a list shorter than the window (500 forward, 100 reverse) is left as it is, otherwise every score at or below 1.25 (reverse 1.15) times the noise becomes 1 |
| PeakCalling.Positions | c3poa_mod/C3POa_mod.py:383 | forward peak p lies at seed + p, reverse peak p at seed - p |
| PeakCalling.ShiftPeaks | c3poa_mod/C3POa_mod.py:383-384 | the shifting loop returns Positions |
| PeakCalling.MergePeaks | c3poa_mod/C3POa_mod.py:418-425 | the merge loop returns Merged of the sorted list |
| PeakCalling.MergedSubset | c3poa_mod/C3POa_mod.py:418-425 | the merge keeps only positions of its input |
| PeakCalling.MergedBelow | c3poa_mod/C3POa_mod.py:418-425 | a bound on the input bounds the merged list |
| PeakCalling.WellSpacedIncreasing | c3poa_mod/C3POa_mod.py:418-425 | consecutive gaps of 200 make a list strictly increasing |
| PeakCalling.MergedSpacing | c3poa_mod/C3POa_mod.py:418-425 | merging a strictly increasing list leaves gaps of at least 200 and keeps its first position |
| PeakCalling.MergedShape | c3poa_mod/C3POa_mod.py:418-425 | the merged list is a strictly increasing subset of the input, 200 apart, starting with the input's minimum |
| PeakCalling.MergedKeeps | c3poa_mod/C3POa_mod.py:418-425 | sorted position i survives exactly when i = 0 or it is at least 200 past its sorted predecessor |
| PeakCalling.MergedWellSpaced | c3poa_mod/C3POa_mod.py:418-425 | a list already 200 apart is unchanged by the merge |
| PeakCalling.MergedIdempotent | c3poa_mod/C3POa_mod.py:418-425 | merging the merged list again changes nothing |
| PeakCalling.MergedChain | c3poa_mod/C3POa_mod.py:422 | 0, 150, 300 merges to 0 alone |
| PeakCalling.RoundedGaps | c3poa_mod/C3POa_mod.py:429-432 | one gap fewer than peaks (none for no peak) |
| PeakCalling.GapsForMedian | c3poa_mod/C3POa_mod.py:429-432 | the two loops return the consecutive gaps each rounded to 50 |
| PeakCalling.Median | c3poa_mod/C3POa_mod.py:433 | the median is undefined (NaN) exactly for an empty list |
| PeakCalling.MedianPermutation | c3poa_mod/C3POa_mod.py:433 | the median does not depend on the order of the values |
| PeakCalling.MedianBounds | c3poa_mod/C3POa_mod.py:433 | the median lies between some value and some value of the list |
| PeakCalling.RoundedGapAtLeast | c3poa_mod/C3POa_mod.py:432 | a gap of at least 200 rounds to at least 200 |
| PeakCalling.WellSpacedMedian | c3poa_mod/C3POa_mod.py:429-433 | peaks 200 apart have a defined median gap of at least 200 |
| PeakCalling.CalledPeaksShape | c3poa_mod/C3POa_mod.py:358-425 | callPeaks returns at least one position, strictly increasing and 200 apart, each the seed or a shifted peak, the first being the smallest of those; with no reverse peaks the first is the seed |
| PeakCalling.CalledPeaksMedian | c3poa_mod/C3POa_mod.py:429-434 | the median is NaN exactly below two peaks, and otherwise at least 200 |
| PeakCalling.StrandPeakCall | c3poa_mod/C3POa_mod.py:360-384 | one strand: the array is clamped in place and its peaks are those of the four-pass smoothed, clamped curve (none for an empty list) |
| PeakCalling.SmoothAndPick | c3poa_mod/C3POa_mod.py:375-381 | one 51-window pass, three 71-window passes, then peak picking with window 51 and order 1 |
| PeakCalling.CallPeaks | c3poa_mod/C3POa_mod.py:351-434 | both lists are clamped in place; the result is the merged, sorted, de-duplicated set of the seed and shifted peaks, with the median of its rounded gaps |
| Segments.Pieces | c3poa_mod/C3POa_mod.py:154-157 | one piece per consecutive pair of peaks, piece i being seq[peaks[i]:peaks[i+1]] numbered i+1 |
| Segments.FastaFile | c3poa_mod/C3POa_mod.py:158-159 | one FASTA record per subread |
| Segments.FastqFile | c3poa_mod/C3POa_mod.py:160-162 | one FASTQ record per subread |
| Segments.SubreadFile | c3poa_mod/C3POa_mod.py:163-165 | one subreads-file record per subread |
| Segments.InnerSubreads | c3poa_mod/C3POa_mod.py:154-165 | the loop writes to the three files exactly the pieces longer than 30 bases, in order |
| Segments.KeepEnd | c3poa_mod/C3POa_mod.py:167-181 | the head or tail is written to the FASTQ and subreads files exactly when longer than 50 bases |
| Segments.SplitRead | c3poa_mod/C3POa_mod.py:139-185 | no peaks and one peak are errors (IndexError, unbound split2); otherwise the files hold the inner pieces longer than 30, the head (label 0) and tail (label len(peaks)) longer than 50, and the label is str(len(peaks) - 1) |
| Segments.LongOnesMembers | c3poa_mod/C3POa_mod.py:157 | the length filter keeps exactly the long segments |
| Segments.LongOnesIncreasing | c3poa_mod/C3POa_mod.py:154-157 | the filter keeps the segments' order |
| Segments.KeptInnerPieces | c3poa_mod/C3POa_mod.py:154-165 | piece i is kept exactly when its slice is longer than 30; every kept subread is such a piece; labels increase |
| Segments.SplitRepeats | c3poa_mod/C3POa_mod.py:158-182 | the label is str(len(peaks) - 1), and every FASTA record is the labelled slice of a piece longer than 30 |
| Segments.InnerAligned | c3poa_mod/C3POa_mod.py:160-162 | inner subreads have as many qualities as bases when the read does |
| Segments.FastqAligned | c3poa_mod/C3POa_mod.py:160-181 | FASTQ records of aligned subreads are aligned |
| Segments.QualitiesAligned | c3poa_mod/C3POa_mod.py:160-181 | every FASTQ record's quality slice has its sequence slice's length |
| Segments.PiecesTile | c3poa_mod/C3POa_mod.py:154-181 | for sorted peaks inside the read, head, pieces and tail concatenate to the read |
| Segments.JoinedSpan | c3poa_mod/C3POa_mod.py:154-157 | the pieces up to peak n concatenate to seq[peaks[0]:peaks[n]] |
| FastaReader.FastaScan | c3poa_mod/C3POa_mod.py:191-202 | every header pushes one sequence, so the two lists stay equally long |
| FastaReader.FinalSequences | c3poa_mod/C3POa_mod.py:203-204 | after the final push and dropping the first, one sequence per header |
| FastaReader.ReadLine | c3poa_mod/C3POa_mod.py:192-202 | one line of the loop: blank skipped, header adds its first word and pushes the pending sequence, other lines wait |
| FastaReader.FillDict | c3poa_mod/C3POa_mod.py:205-206 | the dict loop assigns headers[i] = sequences[i] in order |
| FastaReader.ReadFasta | c3poa_mod/C3POa_mod.py:187-207 | read_fasta returns the dict of the scanned lines |
| FastaReader.BuildDictUnique | c3poa_mod/C3POa_mod.py:205-206 | the dict's keys are distinct |
| FastaReader.BuildDictMissing | c3poa_mod/C3POa_mod.py:205-206 | a name heading no record is absent |
| FastaReader.BuildDictLast | c3poa_mod/C3POa_mod.py:205-206 | a repeated name maps to the sequence of its last record |
| FastaReader.HeaderStep | c3poa_mod/C3POa_mod.py:195-200 | a `>name` line adds name and pushes the joined, upper-cased pending lines |
| FastaReader.SequenceStep | c3poa_mod/C3POa_mod.py:193-202 | a sequence line becomes pending; an empty one is skipped |
| FastaReader.PendingJoin | c3poa_mod/C3POa_mod.py:199 | joining and upper-casing an upper-case line gives it back |
| FastaReader.ScanRendered | c3poa_mod/C3POa_mod.py:191-202 | the lines of written records leave the loop with their names and sequences |
| FastaReader.FinalRendered | c3poa_mod/C3POa_mod.py:203-204 | after them the final sequence list is the records' sequences |
| FastaReader.BuildDictRecords | c3poa_mod/C3POa_mod.py:205-206 | with distinct names the dict rebuilds the records in order |
| FastaReader.FastaRoundTrip | c3poa_mod/C3POa_mod.py:187-207 | records with distinct names written as `>name` and one sequence line read back as the same dict, in order |
| FastqReader.ReadFastqFile | c3poa_mod/C3POa_mod.py:865-907 | the loop returns the entries of the scanned lines, or the error of the first append that fails (no read yet, or the read already closed) |
| FastqReader.ScanErrorSticks | c3poa_mod/C3POa_mod.py:878-906 | the first failing line decides the result |
| FastqReader.AppendShape | c3poa_mod/C3POa_mod.py:892-904 | a successful append leaves earlier reads alone and adds the line to the last, open read, closing it with its sequence length when it is the quality |
| FastqReader.HeaderShape | c3poa_mod/C3POa_mod.py:883-888 | a header opens a read with seed 40 and keeps the entries well shaped |
| FastqReader.AppendWellShaped | c3poa_mod/C3POa_mod.py:891-904 | appending the sequence or the quality keeps the entries well shaped |
| FastqReader.StepWellShaped | c3poa_mod/C3POa_mod.py:878-906 | every line keeps the entries well shaped, and lastPlus is always set when a quality line comes |
| FastqReader.ScanWellShaped | c3poa_mod/C3POa_mod.py:878-906 | any accepted file leaves the entries well shaped |
| FastqReader.ReadsShape | c3poa_mod/C3POa_mod.py:865-907 | every read has seed 40; every read but the last is finished with a sequence, a quality and the sequence length; so is the last one when the file ends on a record boundary |
| FastqReader.Unstripped | c3poa_mod/C3POa_mod.py:879 | a line without whitespace is its own rstrip |
| FastqReader.HeaderLine | c3poa_mod/C3POa_mod.py:883-888 | a written header opens the read under its full name |
| FastqReader.SequenceLine | c3poa_mod/C3POa_mod.py:891-892 | the sequence line becomes the read's first item |
| FastqReader.PlusLine | c3poa_mod/C3POa_mod.py:895-896 | the third line only sets lastPlus |
| FastqReader.QualityLine | c3poa_mod/C3POa_mod.py:899-904 | the quality line finishes the read |
| FastqReader.RecordLines | c3poa_mod/C3POa_mod.py:878-906 | the four lines of a record add one finished read |
| FastqReader.ScanRender | c3poa_mod/C3POa_mod.py:878-906 | written records scan to their reads, four lines each |
| FastqReader.FastqRoundTrip | c3poa_mod/C3POa_mod.py:865-907 | records written as `@name`, sequence, `+`, quality read back as finished reads with seed 40 and their sequence length |
| ConfigReading.ReadLine | c3poa_mod/C3POa_mod.py:80-82 | a comment or blank line is skipped, otherwise the line is split at tabs |
| ConfigReading.EntriesStep | c3poa_mod/C3POa_mod.py:79-83 | one more line: skipped, a missing-tab error, or `progs[name] = path` |
| ConfigReading.ReadEntries | c3poa_mod/C3POa_mod.py:79-83 | the line loop returns the file's dict or the first line without a tab |
| ConfigReading.EntriesErrorSticks | c3poa_mod/C3POa_mod.py:79-83 | the first failing line decides the result |
| ConfigReading.EntriesUnique | c3poa_mod/C3POa_mod.py:83 | the names in the dict are distinct (a later line wins) |
| ConfigReading.CheckNames | c3poa_mod/C3POa_mod.py:86-91 | the name check finds the first name outside the six programs, else collects all names |
| ConfigReading.UnknownIsFirst | c3poa_mod/C3POa_mod.py:88-91 | an unknown name after only known ones is the first unknown |
| ConfigReading.FirstUnknownSound | c3poa_mod/C3POa_mod.py:88-91 | the name found is in the dict and unknown; when none is found every name is known |
| ConfigReading.FirstUnknownPrefix | c3poa_mod/C3POa_mod.py:88-91 | an unknown name in a prefix is the first unknown of the whole dict |
| ConfigReading.UnknownIff | c3poa_mod/C3POa_mod.py:86-91 | the error is raised exactly when some name is outside the six programs |
| ConfigReading.InitiallyResolved | c3poa_mod/C3POa_mod.py:94 | before the defaults the file's names are resolved and the other programs missing |
| ConfigReading.DefaultStep | c3poa_mod/C3POa_mod.py:94-99 | adding a default appends it and resolves that program |
| ConfigReading.AddDefaults | c3poa_mod/C3POa_mod.py:94-99 | the file's entries stay first and every known program gets its path, the file's or its default |
| ConfigReading.ConfigReader | c3poa_mod/C3POa_mod.py:76-102 | a line without a tab or an unknown name is an error; otherwise every one of the six programs maps to the file's path or the default (consensus to consensus.py), nothing else has a path, and the file's entries come first; it succeeds exactly when every line that is neither a comment nor blank has a tab and every name is known |
| ConfigReading.EmptyConfig | c3poa_mod/C3POa_mod.py:94-99 | a file of comments and blanks gives the defaults |
| ConfigReading.SplitOnTab | c3poa_mod/C3POa_mod.py:82 | `a\tb` splits into a and b |
| ConfigReading.ConfigLineFields | c3poa_mod/C3POa_mod.py:80-83 | a written `name\tpath` line is not skipped and gives back name and path |
| ConfigReading.EntriesAppend | c3poa_mod/C3POa_mod.py:83 | one more data line assigns its name |
| ConfigReading.RoundTripStep | c3poa_mod/C3POa_mod.py:79-83 | one more entry with a new name reads back after the others |
| ConfigReading.ConfigRoundTrip | c3poa_mod/C3POa_mod.py:79-83 | entries with distinct names written one per line read back as the same dict, in order |
| WaterParsing.ReadRow | c3poa_mod/C3POa_mod.py:449-452 | a stripped line is skipped when blank, a comment or a match line; otherwise it is parsed as a row |
| WaterParsing.AppendRow | c3poa_mod/C3POa_mod.py:453-461 | an even row extends the first sequence's bases and positions, an odd row the second's |
| WaterParsing.PrefixStep | c3poa_mod/C3POa_mod.py:448-461 | one more line: skipped, a bad row, or one row added |
| WaterParsing.PrefixScan | c3poa_mod/C3POa_mod.py:448-461 | the index-based and the slice-based scans agree |
| WaterParsing.ScanReport | c3poa_mod/C3POa_mod.py:448-461 | the line loop returns the scanned state or the first bad row |
| WaterParsing.ScanErrorSticks | c3poa_mod/C3POa_mod.py:448-461 | the first bad row decides the result |
| WaterParsing.Indices | c3poa_mod/C3POa_mod.py:462-469 | the first start and last end of each sequence, minus one, and the joined bases; an error when a sequence has no row |
| WaterParsing.WaterParser | c3poa_mod/C3POa_mod.py:436-469 | water_parser returns the indices of the scanned report or its error |
| WaterParsing.RowsCounts | c3poa_mod/C3POa_mod.py:453-461 | the rows alternate: the first sequence gets (n+1)/2 rows, the second n/2, two positions each |
| WaterParsing.AddRowEven | c3poa_mod/C3POa_mod.py:453-456 | an even row adds its start and end to the first sequence only |
| WaterParsing.AddRowOdd | c3poa_mod/C3POa_mod.py:457-460 | an odd row adds its start and end to the second sequence only |
| WaterParsing.LastEven | c3poa_mod/C3POa_mod.py:466 | the last even row index below n |
| WaterParsing.LastOdd | c3poa_mod/C3POa_mod.py:467 | the last odd row index below n |
| WaterParsing.FirstEnds | c3poa_mod/C3POa_mod.py:466 | the first sequence's positions start with row 0's start and end with the last even row's end |
| WaterParsing.SecondEnds | c3poa_mod/C3POa_mod.py:467 | the second sequence's positions start with row 1's start and end with the last odd row's end |
| WaterParsing.MissingRows | c3poa_mod/C3POa_mod.py:466-467 | the parse fails for want of rows exactly with no row (first) or one row (second), and succeeds from two rows |
| WaterParsing.RowPlain | c3poa_mod/C3POa_mod.py:449-450 | a written row is its own strip and is not skipped |
| WaterParsing.RowWords | c3poa_mod/C3POa_mod.py:452-456 | a written row splits into name, start, bases, end |
| WaterParsing.RowRoundTrip | c3poa_mod/C3POa_mod.py:449-456 | a written row parses back to itself |
| WaterParsing.ScanRendered | c3poa_mod/C3POa_mod.py:448-461 | written rows scan to the state of those rows |
| WaterParsing.RowsBases | c3poa_mod/C3POa_mod.py:453-461 | the first sequence collects the bases of the even rows, the second of the odd rows |
| WaterParsing.OutputParts | c3poa_mod/C3POa_mod.py:462-469 | the output of a state with rows on both sides, part by part |
| WaterParsing.RowsFirst | c3poa_mod/C3POa_mod.py:466 | from two rows the first span is (row 0 start - 1, last even row end - 1) |
| WaterParsing.RowsSecond | c3poa_mod/C3POa_mod.py:467 | from two rows the second span is (row 1 start - 1, last odd row end - 1) |
| WaterParsing.RowsPartial | c3poa_mod/C3POa_mod.py:462-464 | partial.fasta holds the joined bases of the even rows and of the odd rows |
| WaterParsing.WaterRoundTrip | c3poa_mod/C3POa_mod.py:436-469 | a written report of two or more rows parses to both spans and the joined bases of each side |
| Consensus.RemoveGaps | c3poa_mod/C3POa_mod.py:706 | `replace('-', '')` leaves no '-' and is no longer than its input |
| Consensus.RemoveGapsCount | c3poa_mod/C3POa_mod.py:706 | one character fewer per '-', and every other character kept with its count |
| Consensus.RemoveGapsConcat | c3poa_mod/C3POa_mod.py:706 | gaps are removed piece by piece, so the kept characters stay in order |
| Consensus.RemoveGapsKeeps | c3poa_mod/C3POa_mod.py:706 | gap-free text is unchanged and removing gaps twice equals once |
| Consensus.WritePairwise | c3poa_mod/C3POa_mod.py:688-692 | the pairwise loop writes PairRecords of the alignment |
| Consensus.PairRecordsMembers | c3poa_mod/C3POa_mod.py:689-691 | the pairwise file holds exactly the records whose name lacks 'CONSENS' |
| Consensus.WritePoaConsensus | c3poa_mod/C3POa_mod.py:701-707 | the poa loop leaves poa_cons as PoaConsensus |
| Consensus.PoaConsensusLast | c3poa_mod/C3POa_mod.py:701-707 | there is a draft exactly when some name contains 'CONSENS0', and it is the last such record, gaps removed |
| Consensus.LastRecord | c3poa_mod/C3POa_mod.py:739-741 | the polished consensus is the last value of the polished FASTA, '' when empty |
| Consensus.LastValueOfFasta | c3poa_mod/C3POa_mod.py:739-741 | for a FASTA with distinct names that is its last record's sequence |
| Consensus.DetermineConsensus | c3poa_mod/C3POa_mod.py:654-778 | determine_consensus returns Decide: the several-repeats, zero-repeat or empty branch |
| Consensus.SinglePeakIsZeroRepeat | c3poa_mod/C3POa_mod.py:668-744 | a NaN median never takes the several-repeats branch, and the zero-repeat branch is taken exactly for one peak |
| Consensus.NoConsensusIsEmpty | c3poa_mod/C3POa_mod.py:666-778 | outside both branches the result is ('', ''), which happens only for no peaks or a median not above the cutoff |
| Consensus.PairIffThreePeaks | c3poa_mod/C3POa_mod.py:687 | the pairwise path (label '2') is taken exactly for three peaks |
| Consensus.MultiLabel | c3poa_mod/C3POa_mod.py:675 | the several-repeats label is str(len(peaks) - 1) and never '0' |
| Consensus.ZeroAssembly | c3poa_mod/C3POa_mod.py:744-776 | the merge fails exactly when consensus.py wrote no 'consensus' record; otherwise the label is '0' and the result is seq[seed:after[0]] + merged + seq[before[1]:seed], of the summed length when the indices lie in order |
| Consensus.ZeroWaterFailure | c3poa_mod/C3POa_mod.py:747 | a report water_parser cannot use ends the zero-repeat branch with its error |
| Analysis.Remove | c3poa_mod/C3POa_mod.py:930 | list.remove fails exactly when the value is absent; otherwise it drops the first occurrence and keeps the rest in order |
| Analysis.AnalyzeRead | c3poa_mod/C3POa_mod.py:915-950 | one iteration returns ReadOutcome: skipped, continued, failed or one record |
| Analysis.AnalyzeEntry | c3poa_mod/C3POa_mod.py:914 | an entry that does not unpack into six values fails; otherwise the read is analysed |
| Analysis.AnalyzeReads | c3poa_mod/C3POa_mod.py:909-950 | analyze_reads writes the records of its iterations in order and stops at the first exception |
| Analysis.FoldStep | c3poa_mod/C3POa_mod.py:914-950 | one more iteration: fail, skip or append a record |
| Analysis.FoldStopsAfter | c3poa_mod/C3POa_mod.py:914-950 | nothing after a failure is written |
| Analysis.FoldFailure | c3poa_mod/C3POa_mod.py:914-950 | the loop stops early exactly when some iteration fails, with the first failure |
| Analysis.FoldRecords | c3poa_mod/C3POa_mod.py:914-950 | without a failure the loop writes exactly the iterations' records in order |
| Analysis.FoldWritten | c3poa_mod/C3POa_mod.py:942-948 | every written record is some iteration's record |
| Analysis.ShortReadSkipped | c3poa_mod/C3POa_mod.py:915 | reads no longer than the length cutoff write nothing |
| Analysis.FallbackRemovesSeed | c3poa_mod/C3POa_mod.py:925-930 | when the whole-read call gives two peaks the first is the seed, so remove(seed) leaves the other, at least 200 further |
| Analysis.PeaksFromShape | c3poa_mod/C3POa_mod.py:923-932 | the peaks handed on are non-empty, increasing and 200 apart; a single one lies at least 200 past the seed; several come with a median of at least 200 |
| Analysis.PeaksForShape | c3poa_mod/C3POa_mod.py:918-932 | the same for the peaks of a read |
| Analysis.FallbackNeverSeed | c3poa_mod/C3POa_mod.py:929-930 | the fallback never raises the ValueError of remove |
| Analysis.PeaksNeverSeed | c3poa_mod/C3POa_mod.py:918-932 | neither does peak calling for a read |
| Analysis.FinishNeverSeed | c3poa_mod/C3POa_mod.py:939-948 | nor determine_consensus and the write |
| Analysis.SeedNeverMissing | c3poa_mod/C3POa_mod.py:915-950 | no iteration fails on the seed |
| Analysis.RegimeForRead | c3poa_mod/C3POa_mod.py:925-941 | a read takes the zero-repeat branch exactly when one peak is left, and with a cutoff below 200 it always gets a branch |
| Analysis.WrittenRecords | c3poa_mod/C3POa_mod.py:942-948 | every written record is the record of some entry |
| Analysis.HeaderShape | c3poa_mod/C3POa_mod.py:944-947 | the header starts with `name_` and ends with `_` and the consensus length |
| Analysis.RecordShape | c3poa_mod/C3POa_mod.py:942-948 | a written record has a non-empty consensus and such a header |
| Analysis.AnalyzeCompletes | c3poa_mod/C3POa_mod.py:909-950 | the loop completes exactly when every entry unpacks and no iteration fails, and then writes the records of all reads that produced one |

## Left out

- The Savitzky–Golay coefficients and convolution (`np.linalg.pinv`, `np.convolve`). This is floating-point numerics; the filter is the parameter `Smoothing.Filter`, and nothing is claimed about its values.
- The float threshold `noise*1.15`. 1.15 is not exactly representable, so the reverse threshold is the rational 23/20. The forward 1.25 is exact as 5/4.
- The average quality and `round(average_quals, 2)`. The float is not kept in a read; its printed form is the parameter `Tools.qualityLabel`.
- Every `os.system` call: water, poa, minimap2, racon, consensus.py, `rm` and `mkdir`. Their outputs are parameters (`Aligner`, `Programs`, `Tools.waterReport`), given as the records or lines they would write.
- The polishing loop's `try/except`. It wraps `os.system`, which does not raise.
- File handles and writes, including the shared subreads file. Written files are returned as record sequences.
- Files are read as a sequence of lines, and lines are given without their terminators. Every parser rstrips or strips first, or only tests a prefix.
- Plotting: `makeFig`, `makeFigPartial`, the `figure` early return of `callPeaks` and its `smoothedPeaks` list.
- Timing prints and `print(final)`.
- Argument parsing and module-level setup (`argParser`, lines 104-132).
- The commented-out older versions of `read_fasta`, `determine_consensus`, `makeFigPartial` and `analyze_reads`.
- `launch_c3poa.py`, which submits batch jobs.
- Unicode case mapping. `upper` changes ASCII letters only, and `isspace` is the ASCII and common Unicode whitespace set.
- Text.ParseInt: its own contract says only that the empty string is refused; what is accepted and its value are stated by Text.ParseIntPieces, Text.ParseIntJoin and Text.ParseIntValue.
- Text.ParseInt: accepts ASCII digits only. Python's `int()` also reads the other Unicode decimal digits; water prints ASCII integers.
- Consensus.RemoveGaps: its own contract gives only the absence of '-' and the length bound; what is kept, with its count and order, is stated by Consensus.RemoveGapsCount and Consensus.RemoveGapsConcat.
- Text.Split: its own contract gives only the words' shape; which words, in order, is stated by Text.SplitCovers and Text.SplitSpaced.
- ConfigReading.ConfigReader: adds the default programs in an unspecified order. Python iterates a set, so the method picks each missing program nondeterministically. The contract fixes the contents and that the file's entries come first, not the defaults' order.
- PeakCalling.CallPeaks: requires the two score arrays to be distinct objects. The source always passes two different lists; aliasing them is not modelled.
- Diagonals.Emit: its own contract gives only the length; the order and content are stated by Diagonals.EmitAscending.
- Dicts.Keys, Dicts.Values, Segments.FastaFile, Segments.FastqFile, Segments.SubreadFile, PeakCalling.NoiseClamped, PeakCalling.RoundedGaps, Smoothing.Clamped, Smoothing.Diff: their own contracts give only lengths. Dicts.Keys, Dicts.Values, PeakCalling.RoundedGaps and Smoothing.Diff are closed-form definitions whose bodies give the content: the entries' first and second components in order, each consecutive gap rounded to a multiple of 50, and np.diff's consecutive differences `xs[i+1] - xs[i]`; PeakCalling.GapsForMedian only ties the source's loops to RoundedGaps. The other members' content is stated elsewhere: Segments.KeptInnerPieces, Segments.SplitRepeats and Segments.SplitRead for the files, PeakCalling.NoiseClampedWindow for the noise clamp (which scores are kept and which become 1), and Smoothing.ClampBelowOne, whose result is Clamped, for the clamp to 1.
