# RACE diversity sampling, modelled in Dafny

This project models the core of the RACE diversity-sampling tools for
sequencing reads (FASTA/FASTQ).

Each read goes through four stages:

- **Fingerprint.** `SequenceMinHash::getHash` computes a windowed MinHash
  fingerprint of the read's sequence line.
- **Fold.** `rehash` folds the fingerprint down to one value per sketch
  repetition.
- **Score.** The folded key is scored against a RACE sketch of `R`
  repetitions of `B` counters. `query_and_add` adds up the counters the key
  picks, then increments them. `query` adds them up without changing them.
- **Keep or reorder.** What happens with the score depends on the program:
  - `samplerace` writes the read's chunk to the output when the score is
    below the threshold `tau`.
  - `sampleracemanyfilestaus` does the same for a list of thresholds. Its
    inputs come from a list file, and all of them share one sketch.
  - `sampleracesavable` does the same for a list of thresholds. It carries
    the sketch from one run to the next in a `.bin` savefile.
  - `permuterace` writes no sample. Instead it orders the whole input by
    score (running, normalised or full). It then rewrites the input in
    batches: each batch is fetched in file order and written in score order.

All four programs read records with the chunk parser `SequenceFeatures`.

The modules follow those stages:

- `Hashing`: the integer widths and the byte views the hash reads.
- `MinHash`: the fingerprint.
- `Fold`: the fold.
- `RecordIO`: the parser.
- `Sketch`: the counter sketch.
- `Sorting`: the sort.
- `Pipeline`: the parts every program shares: the key, the score step and
  the keep rule.
- `FrontEnd`: the string decisions on arguments and file names.
- `Samplers`: the three sampling programs.
- `Permute`: the reordering program.

Code that works step by step is modelled with methods over arrays and
classes. Each such method is proved equal to a pure function, and the
properties are lemmas about those functions. This covers the lane loop, the
fold loop, the parser's read loop, the sketch updates, the record loops and
the batch loop.

Some parts are parameters, not code:

- `MurmurHash` is a function parameter: any deterministic function of the
  bytes and the seed.
- The layout-specific parsers `SequenceFeaturesSE/I/PE` are not part of this
  model. A run receives them as a `Reader`: the list of parse attempts, each
  failed or yielding a record.
- The parser that `permuterace` restarts at a saved stream position is a
  `Fetcher` parameter: what it finds at those positions.
- The sketch's own source file (`RACE.h`) is not part of this model. The
  `Sketch` module states the bucket rule `h mod B` and read-then-increment
  as assumptions, because the call sites use the sketch that way.

## Model

| member | source | states |
|---|---|---|
| Hashing.ToInt32 | src/SequenceMinHash.cpp:38 | storing an `unsigned int` hash in an `int` slot keeps the same 32 bits; the result is negative exactly when the top bit is set |
| Hashing.StringBytes | src/SequenceMinHash.cpp:29-34 | the hash reads one byte per character of the window, in order |
| Hashing.IntsBytes | src/util.cpp:14 | a block of `vps` ints is hashed as `sizeof(int) * vps` bytes |
| MinHash.SequenceMinHash.constructor | src/SequenceMinHash.cpp:10-12 | the number of lanes is the number given at construction |
| MinHash.SequenceMinHash.GetHash | src/SequenceMinHash.cpp:16-45 | lane `n` writes `hashes[n]` and nothing else; exactly the first `_numhashes` slots are written, each with the lane's value, and slots beyond are untouched; the result depends only on `k`, the sequence and the lane count |
| MinHash.LaneIsFirstMinimum | src/SequenceMinHash.cpp:26-41 | a lane stores 0 when no window fits or every window hashes to `UINT_MAX`; otherwise it stores the seed-`3n` hash of the earliest window with the least seed-`n` hash (the strict `<` keeps the first of tied minima) |
| MinHash.LaneZeroStoresTheMinimum | src/SequenceMinHash.cpp:34-38 | for lane 0 the stored value is the least hash itself, as an `int` |
| MinHash.LaneReadsOnlyScannedWindows | src/SequenceMinHash.cpp:33 | only windows with `start + k + 1 < len` are hashed: hash functions that agree on those windows give the same lane value, so the last two k-mer positions are never read |
| Fold.OffsetIsProduct | src/util.cpp:14 | block `i` starts at `values_per_set * i` |
| Fold.Block | src/util.cpp:14 | block `i` is the `vps` consecutive inputs from `vps * i` |
| Fold.Folded | src/util.cpp:11-16 | the folded key has `nhashes` slots, slot `i` being the seed-42 hash of block `i` |
| Fold.Rehash | src/util.cpp:11-16 | the first `nhashes` output slots take the fold of `input[0 .. nhashes*vps)`; later output slots are untouched and the input is only read |
| Fold.FoldSlotDependsOnlyOnItsBlock | src/util.cpp:14 | inputs that agree on block `i` give the same slot `i` |
| Fold.FoldUpdateChangesOneSlot | src/util.cpp:13-15 | changing one input value changes at most the slot of the block holding it |
| Fold.FoldReadsOnlyPrefix | src/util.cpp:13-15 | inputs past `nhashes * vps` are never read |
| RecordIO.LineStream.GetLine | src/io.cpp:58 | `getline` returns the next line and advances, or returns `""` and fails the stream past the end |
| RecordIO.SequenceFeatures | src/io.cpp:10-69 | the flag, `sequence`, `chunk` and the stream left behind are exactly those `Parse` describes (read by `ParseOutcome`) |
| RecordIO.ParseRejectsUnknownFormat | src/io.cpp:15-24 | a format other than fasta or fastq returns false, reads nothing, and leaves `sequence` and `chunk` as they were |
| RecordIO.ParseOutcome | src/io.cpp:26-68 | for fasta (2 lines, `>`) and fastq (4 lines, `@`): success iff the header is non-empty and starts with the format's character, the sequence line is non-empty, and enough reads can be attempted; on success `sequence` is line 2 and `chunk` the record's lines each followed by a newline; whatever happens, nothing from before the call survives |
| RecordIO.ParseTrail | src/io.cpp:57-67 | the trailing loop completes the record exactly when `chunksize - 2` more reads can be attempted, and then yields those lines |
| RecordIO.TrailReads | src/io.cpp:57-62 | the trailing loop reads until the count is reached or the stream fails, appending each line with a newline and counting every attempted read |
| RecordIO.TruncatedFastqRecordAccepted | src/io.cpp:57-67 | a FASTQ record with only three lines left before end of file is accepted, with an empty fourth line, by the code as written; the corrected parser refuses it |
| RecordIO.ParseStrictOutcome | src/io.cpp:64-67 | the corrected count check accepts a record only when all its lines are present, and the chunk is then exactly those lines |
| Sketch.Race.constructor | targets/samplerace.cpp:174 | a new sketch has `R` rows of `B` zero counters (assumption about the sketch) |
| Sketch.Race.QueryAndAdd | targets/permuterace.cpp:251 | returns the sum of the picked counters before the update, then increments each picked counter by one and nothing else (assumption about the sketch) |
| Sketch.Race.Query | targets/permuterace.cpp:308 | returns the same sum and leaves the sketch unchanged (assumption about the sketch) |
| Sketch.Race.Serialize | targets/sampleracesavable.cpp:311 | the saved state is the sketch's shape and counters |
| Sketch.Race.Deserialize | targets/sampleracesavable.cpp:231 | the loaded counters replace the current ones |
| Sketch.Bucket | targets/permuterace.cpp:251 | the bucket of a folded value is in `[0, B)` (assumed rule `h mod B`) |
| Sketch.Increment | targets/permuterace.cpp:251 | after `query_and_add`, each row's picked counter is one higher and every other counter is unchanged |
| Sketch.RescoringAddsReps | targets/permuterace.cpp:308 | querying a key right after adding it gives exactly `R` more than before |
| Sketch.AddingRaisesScoreByAtMostReps | targets/samplerace.cpp:204 | adding a key never lowers any other key's score and raises it by at most `R` |
| Sketch.CountersNeverDecrease | targets/samplerace.cpp:204 | counters only grow as keys are added |
| Sketch.ScoreMonotone | targets/permuterace.cpp:308 | higher counters everywhere never give a lower score |
| Sketch.CausalScoresAt | targets/samplerace.cpp:176-204 | record `i`'s score is its key queried against a sketch holding exactly records `0 .. i-1` |
| Sketch.CausalScoreBound | targets/samplerace.cpp:204-205 | from a fresh sketch, record `i`'s score is at most `R * i`, so it lies in `[0, N]` when `R = 1` |
| Sketch.RowsCountKeys | targets/samplerace.cpp:204 | after `n` keys, the counters of every row add up to `n` |
| Sketch.FinalScoreBounds | targets/permuterace.cpp:274-320 | querying record `i` once all `N` records are in is at least its running score plus `R`, and at most `R * N` |
| Sketch.FinalScoreAboveCausal | targets/permuterace.cpp:274-320 | the record's own increments, plus everything added later, only raise its running score |
| Sketch.LaterKeysOnlyAdd | targets/permuterace.cpp:308 | whatever is added later, a key's score does not drop |
| Sketch.AddAllSplit | targets/sampleracemanyfilestaus.cpp:237-312 | adding keys `a ++ b` equals adding `a`, then `b` |
| Sketch.CausalScoresSplit | targets/sampleracesavable.cpp:224-237 | a stream scored from the counters another stream left gets the same scores as the tail of one long stream: resuming loses nothing |
| Sketch.CausalScoresSnoc | targets/samplerace.cpp:176-204 | one more record gives one more score, against the counters of the earlier records |
| Sketch.CollisionScenario | targets/samplerace.cpp:204 | with `R = 1` and `B = 10`, when records 1 and 3 share a bucket and record 2 does not, the scores are `0, 0, 1` |
| Sorting.SortBy | targets/permuterace.cpp:324-330 | the sorted index is non-decreasing in score and is a permutation of the index |
| Sorting.MapPreservesPermutation | targets/permuterace.cpp:375-391 | the chunks of a permuted index are a permutation of the chunks of the index |
| Pipeline.LayoutOf | targets/samplerace.cpp:62-77 | `SE`, `I` and `PE` select their layouts, and nothing else is accepted |
| Pipeline.Recs | targets/samplerace.cpp:196 | the records of a stream are the successful parses, in order |
| Pipeline.FailedAttemptsChangeNothing | targets/samplerace.cpp:196-204 | a failed parse adds no record anywhere in the stream, so it neither updates the sketch nor writes anything |
| Pipeline.RecsAppend | targets/samplerace.cpp:176-223 | the records of two streams in a row are the records of the first, then those of the second |
| Pipeline.Key | targets/samplerace.cpp:198-202 | a sequence's key is its `reps * hashes`-lane fingerprint folded to `reps` values |
| Pipeline.Setup | targets/samplerace.cpp:170-174 | a run allocates a MinHash of `reps * hashes` lanes, both buffers, and a fresh sketch of shape `reps` by `range` |
| Pipeline.FoldedKey | targets/samplerace.cpp:198-202 | `getHash` then `rehash` leaves the sequence's key in the fold buffer |
| Pipeline.ScoreRecord | targets/samplerace.cpp:198-204 | a record's score is its key queried against the sketch before the call, and the sketch then holds the key too |
| Pipeline.ScoreNext | targets/samplerace.cpp:198-204 | scoring the next record extends the stream's score list by its causal score and the sketch by its key |
| Pipeline.RecordStep | targets/samplerace.cpp:176-204 | appending a record appends its key and its causal score and adds it to the counters |
| Pipeline.SelectedIsKeepRule | targets/samplerace.cpp:206 | a record is kept iff its score is below `tau`, and kept records stay in stream order |
| Pipeline.SmallerTauKeepsSubset | targets/sampleracemanyfilestaus.cpp:314-316 | every threshold judges the same score, so a smaller threshold keeps a subset of what a larger one keeps |
| Pipeline.KeptAreSelectedChunks | targets/samplerace.cpp:206-220 | what a threshold writes is exactly the selected records' chunks, in order; both outputs of a pair take the same records at the same places |
| Pipeline.SplitStream | targets/sampleracemanyfilestaus.cpp:237-333 | a stream cut in two, with the second part scored by the sketch the first part left, keeps exactly what the whole stream keeps |
| FrontEnd.LastIndexOf | targets/samplerace.cpp:98 | `rfind` finds the last occurrence, or reports none exactly when the character is absent |
| FrontEnd.ExtensionOf | targets/samplerace.cpp:98-107 | the extension is the text after the last `'.'` and holds no `'.'`; there is none exactly when the name has no `'.'` |
| FrontEnd.InputExtensionAccepts | targets/sampleracesavable.cpp:96-113 | corrected extension check: no `'.'` gives no extension; the name is accepted iff its extension is fasta, fastq or fq; `fq` becomes fastq |
| FrontEnd.FqRejectedAsWritten | targets/samplerace.cpp:97-112 | as written, the `fq` test runs on the empty extension, so `.fq` inputs are refused; on every other name the two checks agree |
| FrontEnd.FqInputRefused | targets/permuterace.cpp:108-124 | `reads.fq` is refused as written and read as fastq by the corrected check |
| FrontEnd.Extensions | targets/sampleracemanyfilestaus.cpp:240-257 | each listed file gets its own extension check, in list order |
| FrontEnd.SavefileNeedsBin | targets/sampleracesavable.cpp:215-241 | the savefile is accepted iff its extension is `bin`; a name without `'.'` is refused as having no extension |
| FrontEnd.OutputNamesDistinct | targets/sampleracesavable.cpp:126-131 | different threshold texts give different output names, each carrying the given extension |
| FrontEnd.OutputNames | targets/sampleracemanyfilestaus.cpp:124-132 | one output name `base-<tau>.<ext>` per threshold, in threshold order |
| FrontEnd.ParseTaus | targets/sampleracemanyfilestaus.cpp:64-74 | the threshold list is accepted iff every value is positive, and is then kept as given |
| FrontEnd.HasInfix | targets/sampleracemanyfilestaus.cpp:149-151 | a line contains the pattern iff the pattern occurs at some index |
| FrontEnd.ClassifyRules | targets/sampleracemanyfilestaus.cpp:118-155 | a rooted line without `'.'` is a directory; other lines with `'.'` are files, with `_1` checked before `_2` in paired mode; everything else is unrecognised |
| FrontEnd.ReadFileList | targets/sampleracemanyfilestaus.cpp:104-156 | the list loop builds the lists and prefix that `ListAfter` describes line by line |
| FrontEnd.ListStep | targets/sampleracemanyfilestaus.cpp:146-155 | a file line is appended as `prefix/line`, a directory line replaces the prefix, an unrecognised line changes nothing and does not stop the loop, and a blank line ends the program |
| FrontEnd.BlankLineAborts | targets/sampleracemanyfilestaus.cpp:118 | a blank list line ends the program (`line.at(0)` throws), whatever follows it |
| FrontEnd.PrefixStartsEmpty | targets/sampleracemanyfilestaus.cpp:109 | until the first directory line the prefix is empty, so earlier files are listed as `/name` |
| Samplers.OutputsStep | targets/sampleracemanyfilestaus.cpp:314-330 | one more record adds its chunk to exactly the outputs whose threshold is above its score |
| Samplers.Deliver | targets/sampleracemanyfilestaus.cpp:314-330 | for each threshold, output `t` and, for paired reads, its mate output gain the chunk iff the score is below `taus[t]`; other outputs are unchanged |
| Samplers.KeptStageSnoc | targets/samplerace.cpp:206-220 | one more record's chunk, and its mate's, are kept together iff its score is below `tau` |
| Samplers.KeepNext | targets/samplerace.cpp:198-221 | one record's score and keep step extends the sketch, the scores and the outputs as one more stream record would |
| Samplers.KeepBelow | targets/samplerace.cpp:176-223 | after the record loop, the sketch holds all parsed records and the outputs hold the chunks (both mates for paired reads) whose causal score is below `tau`, in stream order |
| Samplers.SampleRace | targets/samplerace.cpp:60-223 | a run exits with 0 iff the layout, input extension (checked as written, so a `.fq` input always exits with -1), `tau` and parameters are valid, otherwise with -1 and nothing written; on 0 the outputs are what `KeepBelow` keeps from a fresh sketch |
| Samplers.DeliverNext | targets/sampleracesavable.cpp:279-303 | one record's scoring and delivery extends every output as one more stream record would |
| Samplers.DeliverStream | targets/sampleracesavable.cpp:257-305 | after one input, the sketch holds the records too, and each output has gained, after its prior content, the chunks its threshold keeps |
| Samplers.DeliverFile | targets/sampleracemanyfilestaus.cpp:240-332 | a listed file with a refused extension is skipped; otherwise its records stream through the sketch the earlier files left |
| Samplers.DeliverListed | targets/sampleracemanyfilestaus.cpp:239-333 | the file loop processes the list file by file with one shared sketch |
| Samplers.ListedRunIsOneRun | targets/sampleracemanyfilestaus.cpp:237-333 | going through the files one by one is one run of one sketch over the records of every accepted file, in list order |
| Samplers.SampleManyFiles | targets/sampleracemanyfilestaus.cpp:64-334 | the exit status is -1 for a bad threshold list, format or parameter; a list file that cannot be opened, or a blank list line, aborts; on 0 the outputs named `base-<tau>.fastq` hold what one sketch keeps over all accepted listed files |
| Samplers.Priors | targets/sampleracesavable.cpp:133 | outputs opened for appending start with their old content |
| Samplers.SampleSavable | targets/sampleracesavable.cpp:65-318 | validation order and exit codes; the sketch starts from the saved counters only when the savefile held some; outputs are appended to; the final counters are saved, and a savefile that cannot be written gives -1 |
| Samplers.ResumedRunIsOneRun | targets/sampleracesavable.cpp:212-241 | a run resumed from saved counters leaves the outputs and the counters as one run over both inputs would |
| Permute.ScoreTypeOf | targets/permuterace.cpp:132-190 | no option means running scores; `R`, `N` and `F` pick running, normalised and full; anything else is refused |
| Permute.Indexed | targets/permuterace.cpp:253-260 | one entry per parsed record, at the positions captured before parsing it |
| Permute.Scored | targets/permuterace.cpp:218-321 | whatever the score type, the index points at the records one for one, in stream order |
| Permute.NormalizedScoreBounds | targets/permuterace.cpp:266-273 | a normalised score lies in `[0, R)` |
| Permute.FullScoreBounds | targets/permuterace.cpp:274-320 | a full score is at least the running score plus `R`, and at most `R * N` |
| Permute.IndexNext | targets/permuterace.cpp:228-260 | one parsed record extends the sketch, the scores and the index by its entry and running score |
| Permute.BuildIndex | targets/permuterace.cpp:220-263 | the first pass leaves the sketch holding every parsed record, and the index of running scores at the records' positions |
| Permute.NormalizeScores | targets/permuterace.cpp:266-273 | entry `d`'s score is divided by `d + 1`, and positions are unchanged |
| Permute.QueryRecord | targets/permuterace.cpp:302-308 | a record's score is `query` of its key against the sketch, which is left unchanged |
| Permute.RescoreNext | targets/permuterace.cpp:302-317 | the `d`-th parsed record of the second pass gives entry `d` its final score, and entries after it are untouched |
| Permute.RescoreFull | targets/permuterace.cpp:274-321 | the second pass gives entry `d` the `query` score of the `d`-th parsed record against the full sketch; positions are unchanged |
| Permute.FetchLayout | targets/permuterace.cpp:376-481 | the rewrite re-parses paired input with the paired parser, and single-end and interleaved input with the single-end parser |
| Permute.RangeMembers | targets/permuterace.cpp:354 | `iota` lays out exactly the batch's indices |
| Permute.Iota | targets/permuterace.cpp:354 | slots `0 .. count` take `start, start + 1, ...` |
| Permute.SortPrefix | targets/permuterace.cpp:356-358 | the first `count` slots take a sorted permutation of what they held |
| Permute.OrderBatch | targets/permuterace.cpp:354-358 | the batch's indices, ordered by non-decreasing first position |
| Permute.FillBatch | targets/permuterace.cpp:375-388 | whatever order visits each batch index once, slot `b` ends up holding the chunk of entry `start + b` (and its mate's in paired mode) |
| Permute.Flush | targets/permuterace.cpp:389-391 | the batch's slots are appended to the output in slot order |
| Permute.AppendBatch | targets/permuterace.cpp:389-391 | a batch's chunks extend the rewrite of the entries before it to the rewrite up to the batch's end |
| Permute.WriteBatch | targets/permuterace.cpp:345-391 | one batch extends the outputs from the entries before it to the entries up to its end, in score order |
| Permute.WriteBatches | targets/permuterace.cpp:336-494 | batches of `batch_size`, the last possibly shorter, cover the sorted index exactly once, so the outputs are the chunks of every entry in score order, the two outputs of a pair at the same place |
| Permute.RewriteKeepsEveryRecord | targets/permuterace.cpp:324-391 | when re-parsing at a record's positions yields its chunk, the output is a permutation of the records' chunks |
| Permute.PermuteRace | targets/permuterace.cpp:74-497 | a run exits with 0 iff the format, extension (checked as written, so a `.fq` input always exits with -1), score type, parameters and batch size are valid, otherwise with -1 and nothing written; on 0 the outputs are the chunks of the score-sorted index |

## Left out

- `MurmurHash` is a parameter (`HashFn`). Its definition is not part of this model.
- The sketch's own source (`RACE.h`) is not part of this model. Several things about it are assumptions, not checked code:
  - the bucket rule `h mod B`;
  - read-then-increment per repetition;
  - `Sketch.Race.Deserialize` requires a saved shape equal to the sketch's. The error for a mismatched savefile, and the savefile's byte layout, are not modelled.
- Sketch scores are natural numbers. The C++ returns them as `double` and the index stores them as `float`. Threshold comparisons and normalised scores use exact reals, so float rounding is not modelled.
- `SequenceFeaturesSE`, `SequenceFeaturesI` and `SequenceFeaturesPE` are not part of this model. A run takes their attempts as a `Reader` and the re-parse at saved positions as a `Fetcher`. The offsets `tellg` returns are opaque numbers.
- Permute.RewriteKeepsEveryRecord: states the permutation only under the hypothesis that the re-parse at a record's positions gives back its chunk. For interleaved input, the rewrite calls the single-end parser on a stream the interleaved parser indexed (targets/permuterace.cpp:430), so no such equality is claimed there.
- The chunk the rewrite copies ignores the parser's success flag, as the source does. What a failed re-parse leaves in `chunk1` is whatever the `Fetcher` returns.
- Sorting.SortBy: `std::sort` is not stable. The model fixes one sorted permutation of the index. Every property proved about it uses only its contract: sorted by score, and a permutation.
- The OpenMP pragmas are not modelled: lanes and fold slots are computed one after another. Each iteration writes its own slot, so the result is the same.
- Stream mechanics are not modelled: `peek`, `eof`, `clear`, `seekg`, opening files, and the do-while termination. The `continue` of `samplerace`/`permuterace` and the `break` of the other two both end the record loop at end of input, and the model treats them alike.
- Reading a last line without a newline: `LineStream` treats every line the same.
- Command-line plumbing is not modelled: `argc` checks, `stoi`/`stod`, usage text, `chrono` timing, and DEBUG printing. The numeric options arrive as `Params`, the thresholds as reals, and the batch size and score type as given.
- Output streams opened before argument validation are not modelled: the model's outputs are empty on exit -1 (or hold their old content, for appended outputs).
- `std::to_string` of a threshold is the parameter `show`, not its decimal formatting.
- Samplers.SampleManyFiles: requires that in paired mode the second list is at least as long as the first. Indexing past its end is undefined behaviour in the source.
- Hashing.CharByte: a character of a Dafny string stands for one byte of the input file, so reducing it modulo 256 is exact only under that convention; multi-byte encodings are not modelled.
- Integer overflow of `int` arithmetic is not modelled: `reps * hashes`, the counters, and the positions.
- Utilities/combine_times.py and Utilities/count_samples_fastq.py are not part of this model. They are reporting scripts.

## Findings

| source | as written | input that shows it | evidently intended | confidence | as-written member | corrected member |
|---|---|---|---|---|---|---|
| targets/samplerace.cpp:97-112 (and targets/permuterace.cpp:108-124) | the `"fq"` → `"fastq"` test runs before the extension is extracted, while it is still `""`, so it never fires | input file `reads.fq`: refused with "Unknown file extension: fq" | map `fq` to `fastq` after extraction, as the other two programs do | not executed | FrontEnd.FqRejectedAsWritten | FrontEnd.InputExtensionAccepts |
| src/io.cpp:57-67 | `linesread` counts attempted reads, including the failed `getline` past end of file | a FASTQ file whose last record has only the lines `@r`, `ACGT`, `+`: the record is accepted with an empty quality line | accept only when all `chunksize` lines were actually read | not executed | RecordIO.TruncatedFastqRecordAccepted | RecordIO.ParseStrictOutcome |
