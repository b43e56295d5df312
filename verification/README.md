# Resumable image captioning and dataset preparation (meublAI), modelled in Dafny

meublAI captions a furniture image dataset with a vision model. Then it
joins the captions back onto the images to build a training set. This
project models the parts of that pipeline that decide what ends up on
disk:

- **`utils/checkpoint.py`**: the resume marker. `get_path` names the file,
  `load` reads the offset back and `save` overwrites it. The module is
  `Checkpoint`. It relies on `Decimal`, which models Python's `str(int)` and
  `int(str)`, including stripping, signs and underscores.
- **`scripts/generate_captions.py`**: the resumable run.
  - `generate_captions` caps the dataset and skips the items the checkpoint
    counts. It describes each image, recording `None` when the call
    raises. At every absolute index `i` with `(i + 1) % save_every == 0` it
    flushes the buffer: first a part file, then the checkpoint. It flushes
    the leftover buffer, merges the parts and removes the checkpoint.
  - `save_partial` writes one part file.
  - `merge_caption_parts` reads the `sorted(glob(...))` list of parts. It
    writes the merged JSON, the optional CSV view and the optional label
    summary, then deletes the parts.
  - The modules are `CaptionDriver`, `CaptionParts`, `LabelSummary` (Counter
    and `most_common`, CSV rows) and `Lexicographic` (Python's string order,
    used by `sorted`).
- **`scripts/prepare_dataset.py`**: the preparation. The id join keeps each
  example that has a caption entry, using the first entry with its id. An
  empty result raises `ValueError`. The image check re-encodes each kept
  image and leaves an image unchanged when the conversion raises. The
  module is `PrepareDataset`.

The file system is a map from path to content (`FileStore`). The class
`Store` holds that map and a ghost journal of every write and removal, in
order. The methods that write files are imperative methods on a `Store`,
as the source is. `SavePartial` and `Checkpoint.Save` state their new
files and journal directly. The merge, the run and the preparation are
proved against specification functions (`MergeEffect`, `Run`, `Prepare`)
that return the outcome and the list of file operations. The properties
are lemmas about those functions.

Python's `sorted` on strings is lexicographic by code point, so
`out.part10.json` sorts before `out.part2.json`. The model follows the code:
parts are merged in lexicographic order, not in numeric order of their
index (`Part10SortsBeforePart2`, `MergeOrderIsLexicographic`). After a run
that started with no part on disk, the merge still reads every record the
loop made, as many times as the loop made it, and no other. They come in
loop order only while every part number is a single digit (`MergedCaptionsOfRun`).

The records `generate_captions` writes have no `"label"` key. The merge it
calls uses the default `save_summary=True`, whose Counter evaluates
`item["label"]` for every captioned record. So as written, a run that
produces at least one truthy caption ends in `KeyError`:

- the merged JSON has already been written;
- the parts are not deleted;
- the checkpoint is not removed.

`DriverRaisesKeyError` proves this. Only a run where no caption is truthy
finishes cleanly.

A run that ends with a leftover flush leaves a checkpoint that `save_every`
does not divide. The checkpoint and the parts stay on disk when the merge
raises, as above. A later run resumed from it, with a larger `max_samples`,
starts at part number `checkpoint // save_every`, which is the leftover
part's own number. Its first flush therefore overwrites that part file, and
the records in it are lost. For example, with checkpoint 1050 and
`save_every` 500, the resumed run writes `out.part2.json` again.
`LeftoverPartReused` proves this for every such run with a positive
`save_every`. With a negative `save_every` the part numbers follow another
pattern, and the statement can fail.

## Model

| member | source | states |
|---|---|---|
| Checkpoint.GetPathShape | utils/checkpoint.py:3-14 | the checkpoint path is the output path followed by ".checkpoint" |
| Checkpoint.GetPathInjective | utils/checkpoint.py:14 | two output paths share a checkpoint file only if they are equal |
| Checkpoint.Load | utils/checkpoint.py:16-34 | no checkpoint file gives 0; a successful load of an existing file is `int()` of its text, stripped |
| Checkpoint.Save | utils/checkpoint.py:36-49 | the checkpoint file is created or overwritten with `str(index)`; no other file changes; exactly one write is journalled |
| Checkpoint.LoadAfterSave | utils/checkpoint.py:30-49 | loading after `save(n)` gives n back, whatever the files held before |
| Checkpoint.LastSaveWins | utils/checkpoint.py:47-49 | of two saves, the later one decides what load returns |
| Checkpoint.LoadIgnoresOtherPaths | utils/checkpoint.py:30-34 | writing any other file leaves the loaded offset unchanged |
| Checkpoint.LoadIgnoresSpace | utils/checkpoint.py:33 | any run of whitespace before and any run after the saved number leave the loaded offset unchanged |
| Decimal.RenderParse | utils/checkpoint.py:33 | `int(str(n)) == n` for every integer n, negative ones included |
| Decimal.DigitsDenote | utils/checkpoint.py:49 | the decimal digits of a natural number are all digits and denote that number |
| Decimal.RenderInjective | utils/checkpoint.py:49 | distinct integers are written as distinct texts |
| Decimal.ParseIgnoresSurroundingSpace | utils/checkpoint.py:33 | `int()` of a text with whitespace before and after equals `int()` of the text |
| Lexicographic.Total | scripts/generate_captions.py:55 | any two distinct names are ordered one way or the other |
| Lexicographic.Transitive | scripts/generate_captions.py:55 | the string order used by `sorted` is transitive |
| Lexicographic.CommonPrefix | scripts/generate_captions.py:55 | names sharing a prefix are ordered by what follows the prefix |
| Lexicographic.SortedListsSet | scripts/generate_captions.py:55 | the sorted listing is strictly increasing and holds exactly the set's names |
| Lexicographic.SortedIsUnique | scripts/generate_captions.py:55 | a strictly increasing listing of a set is the sorted listing |
| Lexicographic.LeastOf | scripts/generate_captions.py:55 | returns the least name of a non-empty set |
| Lexicographic.SortedPaths | scripts/generate_captions.py:55 | the selection loop returns the set's names in sorted order |
| FileStore.Store.Write | scripts/generate_captions.py:46-50 | opening a file for writing replaces its content; the write is journalled |
| FileStore.Store.Remove | scripts/generate_captions.py:104 | `os.remove` drops exactly that path; the removal is journalled |
| CaptionParts.SavePartial | scripts/generate_captions.py:43-50 | a part path without a directory fails with FileNotFoundError and changes nothing; otherwise the part file holds `{"prompt", "captions"}` and nothing else changes |
| CaptionParts.PartPathPieces | scripts/generate_captions.py:44 | the part name is the output path, ".part", `str(index)` and ".json", in that order |
| CaptionParts.PartPathInjective | scripts/generate_captions.py:44 | distinct part numbers name distinct files, so no part overwrites another |
| CaptionParts.PartPathIsNotCheckpoint | scripts/generate_captions.py:44 | a part file is never the checkpoint file |
| CaptionParts.PartPathHasDirectory | scripts/generate_captions.py:45 | creating a part's directory fails exactly when the output path has no directory |
| CaptionParts.PartPathMatchesGlob | scripts/generate_captions.py:55 | every part the driver writes is listed by the merge's glob |
| CaptionParts.Part10SortsBeforePart2 | scripts/generate_captions.py:55 | part 10 is listed before part 2 |
| CaptionParts.SingleDigitPartsInOrder | scripts/generate_captions.py:55 | parts 0 to 9 are listed in numeric order |
| CaptionParts.MergeOrderIsLexicographic | scripts/generate_captions.py:55-64 | when parts 2 and 10 both exist, part 10 is read, and its captions merged, first |
| CaptionParts.ReadDocs | scripts/generate_captions.py:59-61 | reading succeeds iff every listed file holds a JSON object, giving one document per file, in listing order; when every listed file exists, a failure is a JSON decode error |
| CaptionParts.ReadDocsPrefixFailure | scripts/generate_captions.py:59-61 | once a prefix of the listing fails to read, the whole reading fails the same way |
| CaptionParts.ReadParts | scripts/generate_captions.py:59-64 | the reading loop yields the first prompt that is not None and all captions concatenated, or stops at the first unreadable part |
| CaptionParts.FirstPromptIsFirst | scripts/generate_captions.py:62-63 | the merged prompt is the prompt of the first part that has one |
| CaptionParts.FirstPromptNone | scripts/generate_captions.py:57-63 | with no part carrying a prompt, the merged prompt is None |
| CaptionParts.AllCaptionsAppend | scripts/generate_captions.py:64 | the merged captions of two runs of parts are the two lists concatenated |
| CaptionParts.AllCaptionsBlock | scripts/generate_captions.py:64 | each part's captions appear as one block, after those of the parts listed before it |
| CaptionParts.ReplaceAbsent | scripts/generate_captions.py:79 | `replace` leaves a string without the pattern unchanged |
| CaptionParts.ReplaceJsonSuffix | scripts/generate_captions.py:79 | for "o.json" with no ".json" inside o, the CSV path is "o.csv" (and the summary path "o_summary.txt") |
| CaptionParts.RemovalsRemove | scripts/generate_captions.py:102-104 | after the deletion loop, a file exists iff it existed and was not listed |
| CaptionParts.DeleteParts | scripts/generate_captions.py:102-104 | removes the listed parts one by one, in listing order |
| CaptionParts.WriteCsvView | scripts/generate_captions.py:78-88 | writes the CSV rows produced before the first record without a label; completes iff every record has a label |
| CaptionParts.WriteSummaryFile | scripts/generate_captions.py:94-98 | writes the summary text to the `_summary.txt` path |
| CaptionParts.WriteHead | scripts/generate_captions.py:66-88 | writes the merged document, then the optional CSV view; stops early iff the CSV loop meets an unlabelled record |
| CaptionParts.WriteTail | scripts/generate_captions.py:91-104 | writes the optional summary, then deletes the parts when asked to; a KeyError from the Counter comes before any of that |
| CaptionParts.WriteOutputs | scripts/generate_captions.py:66-104 | the writes after reading, as `MergeWrites` lists them, in order |
| CaptionParts.MergeCaptionParts | scripts/generate_captions.py:54-105 | the outcome and every write and removal of `merge_caption_parts`, in order, as `MergeEffect` gives them |
| CaptionParts.MergeReadFailure | scripts/generate_captions.py:59-61 | a listed part that holds no JSON object stops the merge before anything is written |
| CaptionParts.MergeRaisesKeyError | scripts/generate_captions.py:78-93 | once the parts are read, the merge either succeeds or raises KeyError. It raises KeyError iff save_csv is set and some record lacks a label, or save_summary is set and some captioned record lacks one |
| CaptionParts.MergeWritesOutcome | scripts/generate_captions.py:78-98 | the same iff, for the writes alone |
| CaptionParts.MergeDeletesPartsOnlyWhenAsked | scripts/generate_captions.py:102-104 | after a successful merge, every listed part is gone iff delete_parts was set |
| CaptionParts.MergeWritesDeleteParts | scripts/generate_captions.py:102-104 | successful writes keep every listed part, unless delete_parts removes them all |
| LabelSummary.CaptionedLabels | scripts/generate_captions.py:93 | the Counter's input raises KeyError iff a record with a truthy caption has no label |
| LabelSummary.CaptionedLabelsCount | scripts/generate_captions.py:93 | each label occurs in the Counter's input as often as there are captioned records with that label |
| LabelSummary.TallyCounts | scripts/generate_captions.py:93 | the Counter holds each label once, with its number of occurrences, in order of first appearance |
| LabelSummary.MostCommonPermutes | scripts/generate_captions.py:97 | `most_common()` reorders the Counter's entries without losing or adding any |
| LabelSummary.MostCommonOrdered | scripts/generate_captions.py:97 | `most_common()` is by descending count, ties in order of first appearance |
| LabelSummary.SummaryCharacterised | scripts/generate_captions.py:93-98 | the summary raises KeyError iff a captioned record has no label. Otherwise it lists each label of a captioned record once, with the number of captioned records carrying it, by descending count, ties by first appearance |
| LabelSummary.SummaryExample | scripts/generate_captions.py:93-97 | two captioned chairs and an uncaptioned table summarise to "chair: 2" alone |
| LabelSummary.WriteSummary | scripts/generate_captions.py:96-98 | the text is the header followed by one "label: count samples" line per entry, in order |
| LabelSummary.SummaryTextExample | scripts/generate_captions.py:96-98 | the text for one entry, written out character by character |
| LabelSummary.CsvRows | scripts/generate_captions.py:83-88 | one row per record, in order, each with the record's id, label and caption, up to the first record without a label |
| LabelSummary.CsvRowsUnique | scripts/generate_captions.py:83-88 | any row list with that property is the one the writer produces |
| LabelSummary.WriteCsvRows | scripts/generate_captions.py:83-88 | the CSV loop yields those rows and completes iff every record has a label |
| CaptionDriver.FloorDivBounds | scripts/generate_captions.py:138 | `start // save_every` is the floor of the quotient, for either sign of save_every |
| CaptionDriver.ProcessedRange | scripts/generate_captions.py:126-133 | the items processed are those of the capped dataset from the offset on (none below it), clamped to the cap, in dataset order |
| CaptionDriver.RecordsOneToOne | scripts/generate_captions.py:151-164 | one record per item, in order, with the item's id, the prompt and no label; the caption is the described one, or None when the call raised |
| CaptionDriver.LoopShape | scripts/generate_captions.py:137-171 | the flushed batches then the buffer are exactly the records so far; no batch is empty; the part number has gone up by one per flush |
| CaptionDriver.LoopCount | scripts/generate_captions.py:141-171 | after k items, k records are either flushed or buffered |
| CaptionDriver.BatchesCoverRecords | scripts/generate_captions.py:141-176 | the flushed batches plus the leftover are all the records, each exactly once, in order |
| CaptionDriver.FlushedOnBoundary | scripts/generate_captions.py:166 | every flushed batch ends at an absolute count that save_every divides |
| CaptionDriver.BufferOffBoundary | scripts/generate_captions.py:166 | no record still in the buffer sits at such a boundary |
| CaptionDriver.NextPartIndex | scripts/generate_captions.py:138-170 | for save_every > 0, after k items the part number is `(start + k) // save_every` |
| CaptionDriver.BatchPairAt | scripts/generate_captions.py:166-176 | batch n writes part `start // save_every + n` with its records, immediately followed by the checkpoint set to the number of items flushed so far |
| CaptionDriver.OpPathAt | scripts/generate_captions.py:166-176 | the writes alternate: part files at even positions, the checkpoint at odd ones |
| CaptionDriver.PartSurvives | scripts/generate_captions.py:166-176 | after the loop, every batch's part file exists and holds that batch |
| CaptionDriver.FinalCheckpoint | scripts/generate_captions.py:174-176 | when any item is processed, the last write is the checkpoint, and it loads back as start plus the number of items |
| CaptionDriver.NothingToWrite | scripts/generate_captions.py:174 | with no item to process, the loop writes nothing |
| CaptionDriver.ResumeContinues | scripts/generate_captions.py:130-176 | for save_every > 0, after a flush, the rest of the run's writes are exactly those of a fresh run started at the flushed offset, from part `offset // save_every` on |
| CaptionDriver.ResumeFromCheckpoint | scripts/generate_captions.py:130-176 | after a flush k items in, the items left from offset start + k are exactly those the run had not flushed, and the run's writes are those made so far followed by those of a run from start + k over them |
| CaptionDriver.CheckpointAfterFlush | scripts/generate_captions.py:166-168 | after a flush k > 0 items in, the checkpoint on disk loads as start + k |
| CaptionDriver.RestartMatchesRun | scripts/generate_captions.py:130-187 | a run interrupted right after a flush and started again on the files it left loads start + k. It ends with the uninterrupted run's outcome, and its operations are the uninterrupted run's after those already made, so both leave the same files |
| CaptionDriver.NothingLeftToCaption | scripts/generate_captions.py:126-187 | with nothing to caption (empty dataset, max_samples 0, checkpoint at the end) and no part on disk, the run succeeds. It writes a merged output with no prompt and no captions, which stays on disk, and then the header-only summary. No checkpoint is left |
| CaptionDriver.FinishWithNoParts | scripts/generate_captions.py:178-187 | the same for the merge and clean-up alone, on files that hold no part |
| CaptionParts.MergeOfNoParts | scripts/generate_captions.py:54-105 | with no part on disk, the default merge writes the empty merged document, then the header-only summary, and succeeds |
| CaptionDriver.LeftoverPartReused | scripts/generate_captions.py:138-176 | for save_every > 0, a run ending with a leftover flush leaves a checkpoint off a save_every boundary. Its last part is numbered checkpoint // save_every, and a run resumed from that checkpoint writes its first part to that same file |
| CaptionDriver.LeftoverOffBoundary | scripts/generate_captions.py:166-176 | a run whose buffer is not empty at the end stops at a count that save_every does not divide |
| CaptionDriver.LastWrittenPart | scripts/generate_captions.py:174-176 | for save_every > 0, the leftover part is numbered (start + len) // save_every |
| CaptionDriver.FirstWrittenPart | scripts/generate_captions.py:138-167 | a run with items to process writes its first part under number start // save_every |
| CaptionDriver.WrittenPartsAreJson | scripts/generate_captions.py:43-50 | the loop's writes keep every part-glob file a JSON object |
| CaptionDriver.CaptionReachesMerge | scripts/generate_captions.py:141-182 | every record the loop makes is among the captions the merge reads |
| CaptionDriver.MergedCaptionsOfRun | scripts/generate_captions.py:55-176 | after a run that found no part on disk, the glob lists exactly one part per batch, numbered on from start // save_every. The merge reads them all, and its captions hold every record the loop made, as often as the loop made it, and nothing else. When every part number is a single digit, they are the records in loop order |
| CaptionDriver.MergedBatches | scripts/generate_captions.py:55-64 | the same for any batches written as consecutive parts from a given number on |
| CaptionDriver.RunPartNames | scripts/generate_captions.py:55 | after the loop's writes, when no part existed before, the glob lists exactly the parts numbered first to first + count - 1 |
| CaptionDriver.ListingOfRange | scripts/generate_captions.py:55 | `sorted()` of those parts lists each once, and lists them in numeric order when every number is a single digit |
| CaptionParts.ReadCaptionsAt | scripts/generate_captions.py:59-64 | reading files that all hold JSON objects succeeds, and `all_captions` is their captions in listing order |
| CaptionParts.CaptionsAtPermuted | scripts/generate_captions.py:55-64 | listing the same files in another order gives the same captions, each as many times |
| CaptionDriver.DefaultMergeFails | scripts/generate_captions.py:54-93 | with the default arguments, a captioned record without a label makes the merge raise KeyError right after writing the merged JSON |
| CaptionDriver.DriverRaisesKeyError | scripts/generate_captions.py:179-182 | a run with a truthy caption ends in KeyError after the loop's writes and the merged JSON; parts and checkpoint stay |
| CaptionDriver.CheckpointRemovedOnSuccess | scripts/generate_captions.py:184-187 | when the run succeeds, no checkpoint file is left |
| CaptionDriver.CleanUpRemovesCheckpoint | scripts/generate_captions.py:184-187 | a successful merge followed by the clean-up leaves no checkpoint file |
| CaptionDriver.Flush | scripts/generate_captions.py:166-171 | the flush writes the part, then the checkpoint, extending the loop's journal by one batch |
| CaptionDriver.FlushBuffer | scripts/generate_captions.py:166-171 | after a flush, the loop invariant holds with an empty buffer and the next part number |
| CaptionDriver.ProcessItem | scripts/generate_captions.py:144-171 | one iteration keeps the loop invariant: journal and files match the batches flushed so far |
| CaptionDriver.EnumerateItems | scripts/generate_captions.py:141-171 | after the loop, the buffer, part number and journal are as the specification of the loop gives them |
| CaptionDriver.CaptionLoop | scripts/generate_captions.py:137-176 | the loop and the leftover flush write exactly `WrittenOps`; with items to process and no directory, FileNotFoundError and no change |
| CaptionDriver.FinishRun | scripts/generate_captions.py:178-187 | the merge with default arguments, then removal of an existing checkpoint on success |
| CaptionDriver.GenerateCaptions | scripts/generate_captions.py:108-187 | the outcome and every write and removal of the run, in order, as `Run` gives them |
| PrepareDataset.FirstMatch | scripts/prepare_dataset.py:90 | None iff no entry has the id; otherwise an entry with that id |
| PrepareDataset.FirstMatchIsFirst | scripts/prepare_dataset.py:90 | the entry found is the first with the id |
| PrepareDataset.FindCaption | scripts/prepare_dataset.py:90 | the generator's scan returns the first entry with the id, or None |
| PrepareDataset.Joined | scripts/prepare_dataset.py:85-98 | the join never yields more items than the dataset has examples |
| PrepareDataset.JoinCaptions | scripts/prepare_dataset.py:85-98 | the join loop builds the items of `Joined`, in dataset order |
| PrepareDataset.JoinedAppend | scripts/prepare_dataset.py:85-98 | joining two runs of examples joins each and keeps them in order |
| PrepareDataset.JoinedAt | scripts/prepare_dataset.py:92-98 | a matching example contributes its own image with its first entry's caption (None included), right after the items before it; an unmatched one adds nothing |
| PrepareDataset.JoinedEmpty | scripts/prepare_dataset.py:85-102 | the join is empty iff no example's id has an entry |
| PrepareDataset.ConvertAllKeeps | scripts/prepare_dataset.py:106-112 | the image check keeps the number of items and every caption; a failed conversion leaves its item unchanged; a successful one stores the converted image |
| PrepareDataset.CheckImages | scripts/prepare_dataset.py:106-112 | the in-place loop leaves the array holding each item converted |
| PrepareDataset.PrepareHfDataset | scripts/prepare_dataset.py:83-112 | the join, the empty check and the image check together give `Prepare`'s result |
| PrepareDataset.PrepareWithoutCaptions | scripts/prepare_dataset.py:90-102 | a caption file without "captions" raises KeyError at the first example, or ValueError when there is none |
| PrepareDataset.PrepareOutcome | scripts/prepare_dataset.py:100-102 | ValueError iff no example's id has an entry; otherwise between one item and one per example, and no other error |

## Left out

- Logging, `tqdm` progress bars and `print` are not modelled; they have no effect on files or results.
- `load_from_disk` and `json.load` of the caption file are not modelled. The dataset and the caption document are parameters.
- `get_prompt` is modelled as a constant prompt. It takes no arguments and its body is a stub, so `prompt_base` equals that prompt from the first item on.
- `describe_image` (in `utils/call_openai_api.py`) is a deterministic parameter: for each prompt and image it either returns a caption, possibly None, or raises. The OpenAI call, its network and its randomness are not part of this model.
- `img_to_bytes_dict` (PIL's RGB conversion and JPEG encoding) is a parameter that either returns new bytes or fails.
- `Dataset.from_list`, the feature schema, `makedirs` and `save_to_disk` at the end of `prepare_hf_dataset` (`scripts/prepare_dataset.py:115-125`) are not modelled; the model stops at the list handed to `from_list`.
- JSON text is not modelled. A file holds a parsed document (prompt and captions), CSV rows or plain text. Indentation, `ensure_ascii` and the CSV quoting are therefore not captured. A part file that is not a JSON object is read as a decode error.
- A record with no "id" or "caption" key cannot be expressed. Records always have both, as the ones the driver writes do. A JSON `null` prompt and a missing "prompt" key are the same `None`.
- A JSON `null` "captions" value and a JSON `null` "label" cannot be expressed either: `Doc.captions == None` stands for a missing "captions" key, and `Record.classLabel == None` for a missing "label" key. In Python, a null "captions" makes `all_captions.extend(None)` raise TypeError (`scripts/generate_captions.py:64`), where a missing key reads as `[]`. A null "label" is written to the CSV and counted in the summary as the label `None` (`scripts/generate_captions.py:85`, `:93`), where a missing key raises KeyError. Neither comes from files the driver writes.
- `glob` is modelled for the one pattern the merge uses. The `*` matches any text without a `/`. Glob metacharacters inside the output path itself, and hidden files, are not modelled.
- Directories are not modelled beyond `HasDirectory`. `os.makedirs(os.path.dirname(p))` fails with FileNotFoundError exactly when p has no `/`. Files in other directories, permissions and a full disk are not modelled.
- Crashes, concurrent runs and partial writes are not modelled. A run is atomic up to its outcome, and resumption is stated as an equality of write sequences.
- CaptionDriver.ResumeFromCheckpoint: proved only for save_every > 0 and a non-negative offset. A negative save_every or a negative checkpoint value runs the same modelled loop, but the resume equality is not stated for them.
- CaptionDriver.NextPartIndex: proved only for save_every > 0. The source accepts a negative save_every and `Run` models it, but then the part number after k items is not (start + k) // save_every: with save_every = -2, offset 0 and three records, the leftover is part 1 while (0 + 3) // -2 is -2.
- CaptionDriver.LastWrittenPart: proved only for save_every > 0, for the same reason; the example above is a counterexample for a negative save_every.
- CaptionDriver.LeftoverPartReused: proved only for save_every > 0. In the example above, a run resumed from checkpoint 3 writes part 3 // -2 == -2, another file, so the leftover part is not overwritten.
- CaptionDriver.ResumeContinues: proved only for save_every > 0. A fresh run from offset k numbers its first part k // save_every, which for a negative save_every is not the number the interrupted run had reached: in the example above, after the flush at 2 the run goes on with part 1, while a run from offset 2 starts at 2 // -2 == -1.
- CaptionDriver.RestartMatchesRun: also assumes the output path has a directory. Without one, a run with items fails at its first flush, before any checkpoint exists to resume from.
- CaptionDriver.NothingLeftToCaption: assumes the output path has a directory. Without one, even an empty run fails with FileNotFoundError, because the merge's `os.makedirs('')` raises (`scripts/generate_captions.py:72`); `MergeEffect` models that failure.
- Decimal.ParseInt, Decimal.Render: Python's `int()` also accepts non-ASCII Unicode decimal digits (Arabic-Indic, fullwidth, and others); the model accepts only '0' to '9'. Python 3.11 and later also raise ValueError when converting more than 4300 digits either way, which the model does not. Neither changes a checkpoint that `save` wrote, which holds ASCII digits.
- CaptionParts.MergeCaptionParts: each part is read once into a parsed document. A file changed by another process between the listing and the read is not modelled.
- The merge writes the merged JSON and its optional views before it removes any part. This order is in `MergeWrites`'s operation list; no separate lemma restates it.
