/**
 * The resumable caption run, `generate_captions`: read the resume offset
 * from the checkpoint, cap and skip the dataset, describe each image, flush
 * the buffer as a part file and move the checkpoint at every `save_every`-th
 * absolute index, flush what is left, merge the parts and remove the
 * checkpoint.
 */
module CaptionDriver {
  import opened Common
  import opened Decimal
  import opened Lexicographic
  import opened FileStore
  import opened Checkpoint
  import opened LabelSummary
  import opened CaptionParts

  /** What the vision-model call does for one image: return a caption (perhaps None) or raise. */
  datatype Described = Returned(caption: Option<string>) | Raised

  /** Python's `a // b`, which rounds toward negative infinity. */
  function FloorDiv(a: int, b: int): int
    requires b != 0
  {
    if b > 0 then a / b else (-a) / (-b)
  }

  /** The quotient is the floor of a / b for either sign of b. */
  lemma FloorDivBounds(a: int, b: int)
    requires b != 0
    ensures var q := FloorDiv(a, b);
            && (b > 0 ==> b * q <= a < b * q + b)
            && (b < 0 ==> b * q + b < a <= b * q)
  {
  }

  /** How many items `dataset.select(range(min(max_samples, len(dataset))))` keeps. */
  function CapLength(n: nat, maxSamples: Option<int>): (c: nat)
    ensures c <= n
  {
    match maxSamples
    case None => n
    case Some(m) => if m < 0 then 0 else if m < n then m else n
  }

  /** The dataset after the max_samples cap. */
  function Capped(dataset: seq<Example>, maxSamples: Option<int>): seq<Example> {
    dataset[..CapLength(|dataset|, maxSamples)]
  }

  /** The items still to process: `select(range(start_index, len))` when the offset is positive. */
  function Remaining(capped: seq<Example>, start: int): seq<Example> {
    if start > 0 then capped[(if start < |capped| then start else |capped|)..] else capped
  }

  /** The caption recorded for one item: a raised call is caught and recorded as None. */
  function CaptionFrom(d: Described): Option<string> {
    match d
    case Returned(c) => c
    case Raised => None
  }

  /** The `{id, prompt, caption}` record of one item; it has no "label" key. */
  function RecordFor(e: Example, prompt: Option<string>, describe: (Option<string>, Image) -> Described): Record {
    Record(e.id, prompt, CaptionFrom(describe(prompt, e.image)), None)
  }

  function Records(items: seq<Example>, prompt: Option<string>, describe: (Option<string>, Image) -> Described): seq<Record> {
    seq(|items|, k requires 0 <= k < |items| => RecordFor(items[k], prompt, describe))
  }

  /** The loop's variables after some items: the buffer, the next part number and the batches flushed so far. */
  datatype LoopState = LoopState(results: seq<Record>, partIndex: int, flushed: seq<seq<Record>>)

  /**
   * The loop after its first k items, the item at position j having the
   * absolute index start + j. `(i + 1) % save_every == 0` holds in Python
   * exactly when save_every divides i + 1, as it does here.
   */
  function LoopAfter(start: int, saveEvery: int, firstPart: int, recs: seq<Record>, k: nat): LoopState
    requires saveEvery != 0 && k <= |recs|
    decreases k
  {
    if k == 0 then LoopState([], firstPart, [])
    else
      var s := LoopAfter(start, saveEvery, firstPart, recs, k - 1);
      var results := s.results + [recs[k - 1]];
      if (start + k) % saveEvery == 0 then LoopState([], s.partIndex + 1, s.flushed + [results])
      else LoopState(results, s.partIndex, s.flushed)
  }

  /** The batches in order, the leftover buffer last when it is not empty. */
  function AllBatches(s: LoopState): seq<seq<Record>> {
    s.flushed + (if s.results != [] then [s.results] else [])
  }

  function Flatten(batches: seq<seq<Record>>): seq<Record>
    decreases |batches|
  {
    if batches == [] then [] else Flatten(batches[..|batches| - 1]) + batches[|batches| - 1]
  }

  /**
   * The writes of the batches: for each, its part file, then the checkpoint
   * set to the number of items flushed so far, counted from the offset.
   */
  function BatchOps(outputPath: string, prompt: Option<string>, firstPart: int, start: int,
                    batches: seq<seq<Record>>): seq<FileOp>
    decreases |batches|
  {
    if batches == [] then []
    else
      var n := |batches| - 1;
      BatchOps(outputPath, prompt, firstPart, start, batches[..n])
      + [Write(PartPath(outputPath, firstPart + n), PartDoc(prompt, batches[n])),
         Write(GetPath(outputPath), Text(Render(start + |Flatten(batches)|)))]
  }

  /** Every write the loop and the final flush make. */
  function WrittenOps(outputPath: string, prompt: Option<string>, start: int, saveEvery: int, recs: seq<Record>): seq<FileOp>
    requires saveEvery != 0
  {
    var firstPart := FloorDiv(start, saveEvery);
    BatchOps(outputPath, prompt, firstPart, start, AllBatches(LoopAfter(start, saveEvery, firstPart, recs, |recs|)))
  }

  /**
   * `generate_captions(dataset_path, output_path, max_samples, save_every)`
   * on a loaded dataset, with `get_prompt()` returning `prompt`: the outcome
   * and every file operation, in order.
   */
  ghost function Run(files: Files, dataset: seq<Example>, outputPath: string, maxSamples: Option<int>,
                     saveEvery: int, prompt: Option<string>, describe: (Option<string>, Image) -> Described): Effect
  {
    match Load(files, outputPath)
    case Failure(e) => Effect(Fail(e), [])
    case Success(start) =>
      if saveEvery == 0 then Effect(Fail(ZeroDivisionError), [])
      else
        var recs := Records(Remaining(Capped(dataset, maxSamples), start), prompt, describe);
        if |recs| > 0 && !HasDirectory(outputPath) then Effect(Fail(FileNotFoundError), [])
        else
          var written := WrittenOps(outputPath, prompt, start, saveEvery, recs);
          var finish := MergeAndCleanUp(ApplyAll(files, written), outputPath);
          Effect(finish.outcome, written + finish.ops)
  }

  /**
   * The end of `generate_captions`, on the files the loop left: the merge
   * with its default arguments, then, when it succeeds, the removal of the
   * checkpoint file if there is one.
   */
  ghost function MergeAndCleanUp(files: Files, outputPath: string): Effect {
    var merge := MergeEffect(files, outputPath, outputPath + ".json", true, false, true);
    if merge.outcome.Fail? then merge
    else
      var cleanup := if GetPath(outputPath) in ApplyAll(files, merge.ops) then [Remove(GetPath(outputPath))] else [];
      Effect(Pass, merge.ops + cleanup)
  }

  // ---------------------------------------------------------------------
  // The loop and its batches

  lemma FlattenSnoc(batches: seq<seq<Record>>, b: seq<Record>)
    ensures Flatten(batches + [b]) == Flatten(batches) + b
  {
    assert (batches + [b])[..|batches|] == batches;
  }

  /**
   * After k items the flushed batches followed by the buffer are exactly the
   * first k records, no flushed batch is empty, and the part number has gone
   * up by one per flush.
   */
  lemma {:induction false} LoopShape(start: int, saveEvery: int, firstPart: int, recs: seq<Record>, k: nat)
    requires saveEvery != 0 && k <= |recs|
    ensures var s := LoopAfter(start, saveEvery, firstPart, recs, k);
            && Flatten(s.flushed) + s.results == recs[..k]
            && s.partIndex == firstPart + |s.flushed|
            && (forall j :: 0 <= j < |s.flushed| ==> s.flushed[j] != [])
    decreases k
  {
    if k > 0 {
      var s := LoopAfter(start, saveEvery, firstPart, recs, k - 1);
      LoopShape(start, saveEvery, firstPart, recs, k - 1);
      var results := s.results + [recs[k - 1]];
      assert recs[..k] == recs[..k - 1] + [recs[k - 1]];
      BufferGrows(Flatten(s.flushed), s.results, recs[k - 1], recs[..k - 1], recs[..k]);
      if (start + k) % saveEvery == 0 {
        FlattenSnoc(s.flushed, results);
        assert Flatten(s.flushed + [results]) + [] == Flatten(s.flushed + [results]);
      }
    }
  }

  /** Flushed records then the buffer are a prefix; one more record on the buffer makes the next prefix. */
  lemma BufferGrows<T>(flat: seq<T>, buffer: seq<T>, x: T, before: seq<T>, after: seq<T>)
    requires flat + buffer == before && after == before + [x]
    ensures flat + (buffer + [x]) == after
  {
  }

  /** After k items, k records are either flushed or buffered. */
  lemma LoopCount(start: int, saveEvery: int, firstPart: int, recs: seq<Record>, k: nat)
    requires saveEvery != 0 && k <= |recs|
    ensures |Flatten(LoopAfter(start, saveEvery, firstPart, recs, k).flushed)| + |LoopAfter(start, saveEvery, firstPart, recs, k).results| == k
  {
    LoopShape(start, saveEvery, firstPart, recs, k);
  }

  /**
   * One more item, the one with absolute index i: its record joins the
   * buffer, which is flushed when save_every divides i + 1.
   */
  lemma LoopStep(start: int, saveEvery: int, firstPart: int, recs: seq<Record>, k: nat, i: int)
    requires saveEvery != 0 && k < |recs| && i == start + k
    ensures var s := LoopAfter(start, saveEvery, firstPart, recs, k);
            var results := s.results + [recs[k]];
            LoopAfter(start, saveEvery, firstPart, recs, k + 1)
            == if (i + 1) % saveEvery == 0 then LoopState([], s.partIndex + 1, s.flushed + [results])
               else LoopState(results, s.partIndex, s.flushed)
  {
    assert start + (k + 1) == i + 1;
  }

  /** All the batches, the leftover one included, hold every record once and in order. */
  lemma BatchesCoverRecords(start: int, saveEvery: int, firstPart: int, recs: seq<Record>)
    requires saveEvery != 0
    ensures var bs := AllBatches(LoopAfter(start, saveEvery, firstPart, recs, |recs|));
            && Flatten(bs) == recs
            && (forall j :: 0 <= j < |bs| ==> bs[j] != [])
  {
    var s := LoopAfter(start, saveEvery, firstPart, recs, |recs|);
    LoopShape(start, saveEvery, firstPart, recs, |recs|);
    assert recs[..|recs|] == recs;
    if s.results != [] {
      FlattenSnoc(s.flushed, s.results);
    } else {
      assert AllBatches(s) == s.flushed;
    }
  }

  /** A flush appends its part write, then its checkpoint write, to the writes so far. */
  lemma FlushOps(files: Files, outputPath: string, prompt: Option<string>, firstPart: int, start: int,
                 batches: seq<seq<Record>>, b: seq<Record>, index: int)
    requires index == start + |Flatten(batches + [b])|
    ensures var ops := [Write(PartPath(outputPath, firstPart + |batches|), PartDoc(prompt, b)),
                        Write(GetPath(outputPath), Text(Render(index)))];
            && BatchOps(outputPath, prompt, firstPart, start, batches + [b])
               == BatchOps(outputPath, prompt, firstPart, start, batches) + ops
            && ApplyAll(files, BatchOps(outputPath, prompt, firstPart, start, batches + [b]))
               == ApplyAll(ApplyAll(files, BatchOps(outputPath, prompt, firstPart, start, batches)), ops)
  {
    var all := batches + [b];
    assert all[..|all| - 1] == batches;
    BatchOpsSnoc(outputPath, prompt, firstPart, start, all, batches, b, firstPart + |batches|, index);
    ApplyAllAppend(files, BatchOps(outputPath, prompt, firstPart, start, batches),
                   [Write(PartPath(outputPath, firstPart + |batches|), PartDoc(prompt, b)),
                    Write(GetPath(outputPath), Text(Render(index)))]);
  }

  lemma AppendAssociates<T>(a: seq<T>, b: seq<T>, c: seq<T>)
    ensures (a + b) + c == a + (b + c)
  {
  }

  // ---------------------------------------------------------------------
  // Properties of one run

  /**
   * The items processed are the dataset's from the offset (or from 0 when
   * the offset is not positive) up to the cap, in order: no item below the
   * offset is described again.
   */
  lemma ProcessedRange(dataset: seq<Example>, maxSamples: Option<int>, start: int)
    ensures var cap := CapLength(|dataset|, maxSamples);
            var first := if start <= 0 then 0 else if start < cap then start else cap;
            var items := Remaining(Capped(dataset, maxSamples), start);
            && |items| == cap - first
            && (forall j :: 0 <= j < |items| ==> items[j] == dataset[first + j])
  {
  }

  /**
   * One record per item, in order, with the item's id, the prompt, no
   * label, and the caption returned, or None when the call raised.
   */
  lemma RecordsOneToOne(items: seq<Example>, prompt: Option<string>, describe: (Option<string>, Image) -> Described)
    ensures var recs := Records(items, prompt, describe);
            && |recs| == |items|
            && forall j :: 0 <= j < |items| ==>
                 && recs[j].id == items[j].id
                 && recs[j].prompt == prompt
                 && recs[j].classLabel == None
                 && (describe(prompt, items[j].image).Raised? ==> recs[j].caption == None)
                 && (describe(prompt, items[j].image).Returned? ==> recs[j].caption == describe(prompt, items[j].image).caption)
  {
  }

  lemma {:induction false} BatchOpsLength(outputPath: string, prompt: Option<string>, firstPart: int, start: int,
                                          batches: seq<seq<Record>>)
    ensures |BatchOps(outputPath, prompt, firstPart, start, batches)| == 2 * |batches|
    decreases |batches|
  {
    if batches != [] {
      BatchOpsLength(outputPath, prompt, firstPart, start, batches[..|batches| - 1]);
    }
  }

  /**
   * The n-th batch's part file, numbered on from the first part, is write 2n;
   * write 2n + 1, right after it, saves the count of records flushed up to
   * and including that batch, counted from the offset.
   */
  lemma {:induction false} BatchPairAt(outputPath: string, prompt: Option<string>, firstPart: int, start: int,
                                       batches: seq<seq<Record>>, n: nat)
    requires n < |batches|
    ensures |BatchOps(outputPath, prompt, firstPart, start, batches)| == 2 * |batches|
    ensures BatchOps(outputPath, prompt, firstPart, start, batches)[2 * n]
            == Write(PartPath(outputPath, firstPart + n), PartDoc(prompt, batches[n]))
    ensures BatchOps(outputPath, prompt, firstPart, start, batches)[2 * n + 1]
            == Write(GetPath(outputPath), Text(Render(start + |Flatten(batches[..n + 1])|)))
    decreases |batches|
  {
    var init := batches[..|batches| - 1];
    var last := batches[|batches| - 1];
    var total := start + |Flatten(batches)|;
    var part := Write(PartPath(outputPath, firstPart + |init|), PartDoc(prompt, last));
    var save := Write(GetPath(outputPath), Text(Render(total)));
    BatchOpsSnoc(outputPath, prompt, firstPart, start, batches, init, last, firstPart + |init|, total);
    BatchOpsLength(outputPath, prompt, firstPart, start, init);
    if n == |batches| - 1 {
      assert batches[..n + 1] == batches;
      PairAt(BatchOps(outputPath, prompt, firstPart, start, batches), BatchOps(outputPath, prompt, firstPart, start, init),
             part, save);
    } else {
      BatchPairAt(outputPath, prompt, firstPart, start, init, n);
      assert init[n] == batches[n] && init[..n + 1] == batches[..n + 1];
      BeforePair(BatchOps(outputPath, prompt, firstPart, start, batches), BatchOps(outputPath, prompt, firstPart, start, init),
                 part, save, 2 * n);
    }
  }

  lemma PairAt<T>(whole: seq<T>, before: seq<T>, x: T, y: T)
    requires whole == before + [x, y]
    ensures |whole| == |before| + 2 && whole[|before|] == x && whole[|before| + 1] == y
  {
  }

  lemma BeforePair<T>(whole: seq<T>, before: seq<T>, x: T, y: T, i: nat)
    requires whole == before + [x, y] && i + 1 < |before|
    ensures whole[i] == before[i] && whole[i + 1] == before[i + 1]
  {
  }

  /** Every flushed batch ends where save_every divides the absolute count. */
  lemma {:induction false} FlushedOnBoundary(start: int, saveEvery: int, firstPart: int, recs: seq<Record>, k: nat, n: nat)
    requires saveEvery != 0 && k <= |recs|
    requires n < |LoopAfter(start, saveEvery, firstPart, recs, k).flushed|
    ensures var flushed := LoopAfter(start, saveEvery, firstPart, recs, k).flushed;
            (start + |Flatten(flushed[..n + 1])|) % saveEvery == 0
    decreases k
  {
    var s := LoopAfter(start, saveEvery, firstPart, recs, k - 1);
    var results := s.results + [recs[k - 1]];
    if n < |s.flushed| {
      FlushedOnBoundary(start, saveEvery, firstPart, recs, k - 1, n);
      if (start + k) % saveEvery == 0 {
        assert (s.flushed + [results])[..n + 1] == s.flushed[..n + 1];
      }
    } else {
      LoopCount(start, saveEvery, firstPart, recs, k);
      assert (s.flushed + [results])[..n + 1] == s.flushed + [results];
    }
  }

  /** No count inside the buffer still waiting is divisible by save_every: none was skipped. */
  lemma {:induction false} BufferOffBoundary(start: int, saveEvery: int, firstPart: int, recs: seq<Record>, k: nat, j: int)
    requires saveEvery != 0 && k <= |recs|
    requires k - |LoopAfter(start, saveEvery, firstPart, recs, k).results| < j <= k
    ensures (start + j) % saveEvery != 0
    decreases k
  {
    if j < k {
      BufferOffBoundary(start, saveEvery, firstPart, recs, k - 1, j);
    }
  }

  /** d * m grows with m. */
  lemma {:induction false} MulAtLeast(d: int, m: int)
    requires d > 0 && m >= 1
    ensures d * m >= d
    decreases m
  {
    if m > 1 {
      MulAtLeast(d, m - 1);
      assert d * m == d * (m - 1) + d;
    }
  }

  /** Quotient and remainder are unique. */
  lemma DivUnique(n: int, d: int, q: int, r: int)
    requires d > 0 && n == d * q + r && 0 <= r < d
    ensures n / d == q && n % d == r
  {
    var q' := n / d;
    var r' := n % d;
    assert d * q' + r' == n;
    assert d * q' - d * q == d * (q' - q);
    if q' > q {
      MulAtLeast(d, q' - q);
      assert false;
    } else if q' < q {
      MulAtLeast(d, q - q');
      assert false;
    }
  }

  /** n // d grows by one exactly at the multiples of d. */
  lemma DivStep(n: int, d: int)
    requires d > 0
    ensures n / d == (n - 1) / d + (if n % d == 0 then 1 else 0)
  {
    var q := (n - 1) / d;
    var r := (n - 1) % d;
    if r == d - 1 {
      DivUnique(n, d, q + 1, 0);
    } else {
      DivUnique(n, d, q, r + 1);
    }
  }

  /** With a positive save_every the part number after k items is (start + k) // save_every. */
  lemma {:induction false} NextPartIndex(start: int, saveEvery: int, recs: seq<Record>, k: nat)
    requires saveEvery > 0 && k <= |recs|
    ensures LoopAfter(start, saveEvery, FloorDiv(start, saveEvery), recs, k).partIndex == FloorDiv(start + k, saveEvery)
    decreases k
  {
    if k > 0 {
      NextPartIndex(start, saveEvery, recs, k - 1);
      DivStep(start + k, saveEvery);
    }
  }

  /**
   * When there is anything to process, the last write sets the checkpoint
   * to the offset plus the number processed, and loading it gives that.
   */
  lemma FinalCheckpoint(files: Files, outputPath: string, prompt: Option<string>, start: int, saveEvery: int, recs: seq<Record>)
    requires saveEvery != 0 && |recs| > 0
    ensures var ops := WrittenOps(outputPath, prompt, start, saveEvery, recs);
            && |ops| >= 2
            && ops[|ops| - 1] == Write(GetPath(outputPath), Text(Render(start + |recs|)))
            && Load(ApplyAll(files, ops), outputPath) == Success(start + |recs|)
  {
    var firstPart := FloorDiv(start, saveEvery);
    var bs := AllBatches(LoopAfter(start, saveEvery, firstPart, recs, |recs|));
    BatchesCoverRecords(start, saveEvery, firstPart, recs);
    assert bs != [];
    var ops := WrittenOps(outputPath, prompt, start, saveEvery, recs);
    assert ops[|ops| - 1] == Write(GetPath(outputPath), Text(Render(start + |recs|)));
    LoadAfterSave(ApplyAll(files, ops[..|ops| - 1]), outputPath, start + |recs|);
  }

  /** With nothing left to process the loop writes nothing. */
  lemma NothingToWrite(outputPath: string, prompt: Option<string>, start: int, saveEvery: int)
    requires saveEvery != 0
    ensures WrittenOps(outputPath, prompt, start, saveEvery, []) == []
  {
  }

  // ---------------------------------------------------------------------
  // Resuming from a checkpoint

  lemma {:induction false} FlattenAppend(a: seq<seq<Record>>, b: seq<seq<Record>>)
    ensures Flatten(a + b) == Flatten(a) + Flatten(b)
    decreases |b|
  {
    if b == [] {
      assert a + b == a;
    } else {
      var last := b[|b| - 1];
      var init := b[..|b| - 1];
      assert a + b == (a + init) + [last];
      assert b == init + [last];
      FlattenAppend(a, init);
      FlattenSnoc(a + init, last);
      FlattenSnoc(init, last);
    }
  }

  /** The writes of two runs of batches, the second numbered on from the first. */
  lemma {:induction false} BatchOpsAppend(outputPath: string, prompt: Option<string>, firstPart: int, start: int,
                                          a: seq<seq<Record>>, b: seq<seq<Record>>, nextPart: int, nextStart: int)
    requires nextPart == firstPart + |a| && nextStart == start + |Flatten(a)|
    ensures BatchOps(outputPath, prompt, firstPart, start, a + b)
            == BatchOps(outputPath, prompt, firstPart, start, a) + BatchOps(outputPath, prompt, nextPart, nextStart, b)
    decreases |b|
  {
    if b == [] {
      assert a + b == a;
    } else {
      var last := b[|b| - 1];
      var init := b[..|b| - 1];
      var partNo := nextPart + |init|;
      var total := nextStart + |Flatten(b)|;
      BatchOpsAppend(outputPath, prompt, firstPart, start, a, init, nextPart, nextStart);
      BatchOpsAppendLast(outputPath, prompt, firstPart, start, a, b, nextPart, nextStart, init, last, partNo, total);
      BatchOpsSnoc(outputPath, prompt, nextPart, nextStart, b, init, last, partNo, total);
      Regroup(BatchOps(outputPath, prompt, firstPart, start, a + b), BatchOps(outputPath, prompt, firstPart, start, a + init),
              BatchOps(outputPath, prompt, firstPart, start, a), BatchOps(outputPath, prompt, nextPart, nextStart, init),
              [Write(PartPath(outputPath, partNo), PartDoc(prompt, last)), Write(GetPath(outputPath), Text(Render(total)))],
              BatchOps(outputPath, prompt, nextPart, nextStart, b));
    }
  }

  /** The last batch of `a + b` is the last of b, numbered and counted from the start of `a`. */
  lemma BatchOpsAppendLast(outputPath: string, prompt: Option<string>, firstPart: int, start: int,
                           a: seq<seq<Record>>, b: seq<seq<Record>>, nextPart: int, nextStart: int,
                           init: seq<seq<Record>>, last: seq<Record>, partNo: int, total: int)
    requires nextPart == firstPart + |a| && nextStart == start + |Flatten(a)|
    requires b != [] && init == b[..|b| - 1] && last == b[|b| - 1]
    requires partNo == nextPart + |init| && total == nextStart + |Flatten(b)|
    ensures BatchOps(outputPath, prompt, firstPart, start, a + b)
            == BatchOps(outputPath, prompt, firstPart, start, a + init)
               + [Write(PartPath(outputPath, partNo), PartDoc(prompt, last)), Write(GetPath(outputPath), Text(Render(total)))]
  {
    assert (a + b)[..|a + b| - 1] == a + init;
    FlattenAppend(a, b);
    BatchOpsSnoc(outputPath, prompt, firstPart, start, a + b, a + init, last, partNo, total);
  }

  /** `(done + mid) + pair`, regrouped as `done + (mid + pair)`. */
  lemma Regroup<T>(whole: seq<T>, left: seq<T>, done: seq<T>, mid: seq<T>, pair: seq<T>, right: seq<T>)
    requires whole == left + pair && left == done + mid && right == mid + pair
    ensures whole == done + right
  {
  }

  /** The writes of a run of batches ending in `last`: those of the batches before it, then its part and checkpoint. */
  lemma BatchOpsSnoc(outputPath: string, prompt: Option<string>, firstPart: int, start: int,
                     batches: seq<seq<Record>>, init: seq<seq<Record>>, last: seq<Record>, partNo: int, total: int)
    requires batches != [] && init == batches[..|batches| - 1] && last == batches[|batches| - 1]
    requires partNo == firstPart + |init| && total == start + |Flatten(batches)|
    ensures BatchOps(outputPath, prompt, firstPart, start, batches)
            == BatchOps(outputPath, prompt, firstPart, start, init)
               + [Write(PartPath(outputPath, partNo), PartDoc(prompt, last)), Write(GetPath(outputPath), Text(Render(total)))]
  {
  }

  /**
   * Past a point where the buffer is empty, the loop goes on as a fresh loop
   * over the remaining records would, starting at that absolute index and
   * part number, its flushes added to those already made.
   */
  lemma {:induction false} LoopSuffix(start: int, saveEvery: int, firstPart: int, recs: seq<Record>, k: nat, m: nat)
    requires saveEvery != 0 && k + m <= |recs|
    requires LoopAfter(start, saveEvery, firstPart, recs, k).results == []
    ensures var before := LoopAfter(start, saveEvery, firstPart, recs, k);
            var rest := LoopAfter(start + k, saveEvery, before.partIndex, recs[k..], m);
            LoopAfter(start, saveEvery, firstPart, recs, k + m)
            == LoopState(rest.results, rest.partIndex, before.flushed + rest.flushed)
    decreases m
  {
    var before := LoopAfter(start, saveEvery, firstPart, recs, k);
    if m > 0 {
      LoopSuffix(start, saveEvery, firstPart, recs, k, m - 1);
      var rest := LoopAfter(start + k, saveEvery, before.partIndex, recs[k..], m - 1);
      assert recs[k..][m - 1] == recs[k + (m - 1)];
      assert start + (k + m) == (start + k) + m;
      assert (before.flushed + rest.flushed) + [rest.results + [recs[k + (m - 1)]]]
             == before.flushed + (rest.flushed + [rest.results + [recs[k + (m - 1)]]]);
    }
  }

  /**
   * Where the buffer is empty after k items, the batches of the whole run are
   * those flushed so far followed by those of a fresh run from absolute index
   * start + k over the remaining records, numbered from (start + k) // save_every.
   */
  lemma ResumeBatches(start: int, saveEvery: int, recs: seq<Record>, k: nat)
    requires saveEvery > 0 && k <= |recs|
    requires LoopAfter(start, saveEvery, FloorDiv(start, saveEvery), recs, k).results == []
    ensures var before := LoopAfter(start, saveEvery, FloorDiv(start, saveEvery), recs, k);
            && FloorDiv(start + k, saveEvery) == FloorDiv(start, saveEvery) + |before.flushed|
            && |Flatten(before.flushed)| == k
            && AllBatches(LoopAfter(start, saveEvery, FloorDiv(start, saveEvery), recs, |recs|))
               == before.flushed + AllBatches(LoopAfter(start + k, saveEvery, FloorDiv(start + k, saveEvery), recs[k..], |recs[k..]|))
  {
    var p0 := FloorDiv(start, saveEvery);
    var before := LoopAfter(start, saveEvery, p0, recs, k);
    LoopShape(start, saveEvery, p0, recs, k);
    NextPartIndex(start, saveEvery, recs, k);
    LoopCount(start, saveEvery, p0, recs, k);
    LoopSuffix(start, saveEvery, p0, recs, k, |recs| - k);
    assert k + (|recs| - k) == |recs|;
  }

  /**
   * Resuming: at any point where the buffer has just been flushed (k items
   * in, with save_every dividing start + k), the writes of the whole run are
   * the writes made so far followed by the writes of a run that starts from
   * offset start + k on the records after the k-th.
   */
  lemma ResumeContinues(outputPath: string, prompt: Option<string>, start: int, saveEvery: int, recs: seq<Record>, k: nat)
    requires saveEvery > 0 && k <= |recs|
    requires LoopAfter(start, saveEvery, FloorDiv(start, saveEvery), recs, k).results == []
    ensures WrittenOps(outputPath, prompt, start, saveEvery, recs)
            == BatchOps(outputPath, prompt, FloorDiv(start, saveEvery), start,
                        LoopAfter(start, saveEvery, FloorDiv(start, saveEvery), recs, k).flushed)
               + WrittenOps(outputPath, prompt, start + k, saveEvery, recs[k..])
  {
    var p0 := FloorDiv(start, saveEvery);
    var p1 := FloorDiv(start + k, saveEvery);
    var flushed := LoopAfter(start, saveEvery, p0, recs, k).flushed;
    var tail := AllBatches(LoopAfter(start + k, saveEvery, p1, recs[k..], |recs[k..]|));
    var all := AllBatches(LoopAfter(start, saveEvery, p0, recs, |recs|));
    ResumeBatches(start, saveEvery, recs, k);
    ResumeWhole(outputPath, prompt, start, saveEvery, recs, k, p0, p1, flushed, tail, all);
    Rejoin(WrittenOps(outputPath, prompt, start, saveEvery, recs),
           BatchOps(outputPath, prompt, p0, start, flushed) + BatchOps(outputPath, prompt, p1, start + k, tail),
           BatchOps(outputPath, prompt, p0, start, flushed), BatchOps(outputPath, prompt, p1, start + k, tail),
           WrittenOps(outputPath, prompt, start + k, saveEvery, recs[k..]));
  }

  /**
   * The whole run's writes, split where its batches split: the batches
   * flushed so far, then those of the fresh run, numbered on from them.
   */
  lemma ResumeWhole(outputPath: string, prompt: Option<string>, start: int, saveEvery: int, recs: seq<Record>, k: nat,
                    p0: int, p1: int, flushed: seq<seq<Record>>, tail: seq<seq<Record>>, all: seq<seq<Record>>)
    requires saveEvery > 0 && p0 == FloorDiv(start, saveEvery)
    requires all == AllBatches(LoopAfter(start, saveEvery, p0, recs, |recs|))
    requires all == flushed + tail && p1 == p0 + |flushed| && k == |Flatten(flushed)|
    ensures WrittenOps(outputPath, prompt, start, saveEvery, recs)
            == BatchOps(outputPath, prompt, p0, start, flushed) + BatchOps(outputPath, prompt, p1, start + k, tail)
  {
    BatchOpsAppend(outputPath, prompt, p0, start, flushed, tail, p1, start + k);
  }

  lemma Rejoin<T>(whole: seq<T>, joined: seq<T>, done: seq<T>, rest: seq<T>, resumed: seq<T>)
    requires whole == joined && joined == done + rest && resumed == rest
    ensures whole == done + resumed
  {
  }

  /**
   * The same, stated on the dataset: a run interrupted right after the
   * checkpoint reached start + k, then started again, which loads start + k,
   * describes exactly the items the interrupted run had not flushed and
   * writes exactly what the uninterrupted run would have written after that
   * point.
   */
  lemma ResumeFromCheckpoint(dataset: seq<Example>, outputPath: string, maxSamples: Option<int>, start: int,
                             saveEvery: int, prompt: Option<string>, describe: (Option<string>, Image) -> Described, k: nat)
    requires saveEvery > 0 && start >= 0
    requires k <= |Remaining(Capped(dataset, maxSamples), start)|
    requires var recs := Records(Remaining(Capped(dataset, maxSamples), start), prompt, describe);
             LoopAfter(start, saveEvery, FloorDiv(start, saveEvery), recs, k).results == []
    ensures var items := Remaining(Capped(dataset, maxSamples), start);
            var recs := Records(items, prompt, describe);
            && Remaining(Capped(dataset, maxSamples), start + k) == items[k..]
            && WrittenOps(outputPath, prompt, start, saveEvery, recs)
               == BatchOps(outputPath, prompt, FloorDiv(start, saveEvery), start,
                           LoopAfter(start, saveEvery, FloorDiv(start, saveEvery), recs, k).flushed)
                  + WrittenOps(outputPath, prompt, start + k, saveEvery,
                               Records(Remaining(Capped(dataset, maxSamples), start + k), prompt, describe))
  {
    var items := Remaining(Capped(dataset, maxSamples), start);
    var recs := Records(items, prompt, describe);
    assert Remaining(Capped(dataset, maxSamples), start + k) == items[k..];
    assert Records(items[k..], prompt, describe) == recs[k..];
    ResumeContinues(outputPath, prompt, start, saveEvery, recs, k);
  }

  /** A run whose checkpoint loads and whose output path has a directory: the loop's writes, then the merge and clean-up. */
  lemma RunAfterLoad(files: Files, dataset: seq<Example>, outputPath: string, maxSamples: Option<int>, start: int,
                     saveEvery: int, prompt: Option<string>, describe: (Option<string>, Image) -> Described)
    requires Load(files, outputPath) == Success(start) && saveEvery != 0 && HasDirectory(outputPath)
    ensures var written := WrittenOps(outputPath, prompt, start, saveEvery,
                                      Records(Remaining(Capped(dataset, maxSamples), start), prompt, describe));
            var finish := MergeAndCleanUp(ApplyAll(files, written), outputPath);
            Run(files, dataset, outputPath, maxSamples, saveEvery, prompt, describe) == Effect(finish.outcome, written + finish.ops)
  {
  }

  /**
   * Once k > 0 items are in and the buffer has just been flushed, the
   * checkpoint the writes so far leave behind loads as start + k.
   */
  lemma CheckpointAfterFlush(files: Files, outputPath: string, prompt: Option<string>, start: int, saveEvery: int,
                             recs: seq<Record>, k: nat)
    requires saveEvery != 0 && 0 < k <= |recs|
    requires LoopAfter(start, saveEvery, FloorDiv(start, saveEvery), recs, k).results == []
    ensures var flushed := LoopAfter(start, saveEvery, FloorDiv(start, saveEvery), recs, k).flushed;
            Load(ApplyAll(files, BatchOps(outputPath, prompt, FloorDiv(start, saveEvery), start, flushed)), outputPath)
            == Success(start + k)
  {
    var p0 := FloorDiv(start, saveEvery);
    var flushed := LoopAfter(start, saveEvery, p0, recs, k).flushed;
    LoopShape(start, saveEvery, p0, recs, k);
    assert Flatten(flushed) == recs[..k];
    assert flushed != [];
    var init := flushed[..|flushed| - 1];
    var last := flushed[|flushed| - 1];
    BatchOpsSnoc(outputPath, prompt, p0, start, flushed, init, last, p0 + |init|, start + k);
    var before := BatchOps(outputPath, prompt, p0, start, init) + [Write(PartPath(outputPath, p0 + |init|), PartDoc(prompt, last))];
    var save := Write(GetPath(outputPath), Text(Render(start + k)));
    assert BatchOps(outputPath, prompt, p0, start, flushed) == before + [save];
    ApplyAllSnoc(files, before, save);
    LoadAfterSave(ApplyAll(files, before), outputPath, start + k);
  }

  /**
   * Resuming a run: a run interrupted right after a flush k items in, then
   * started again on the files it left, loads start + k from the checkpoint,
   * ends as the uninterrupted run does, and its operations are the
   * uninterrupted run's after those already made, so both leave the same
   * files, the merged output included.
   */
  lemma RestartMatchesRun(files: Files, dataset: seq<Example>, outputPath: string, maxSamples: Option<int>, start: int,
                          saveEvery: int, prompt: Option<string>, describe: (Option<string>, Image) -> Described, k: nat)
    requires Load(files, outputPath) == Success(start) && start >= 0 && saveEvery > 0 && HasDirectory(outputPath)
    requires k <= |Remaining(Capped(dataset, maxSamples), start)|
    requires var recs := Records(Remaining(Capped(dataset, maxSamples), start), prompt, describe);
             LoopAfter(start, saveEvery, FloorDiv(start, saveEvery), recs, k).results == []
    ensures var recs := Records(Remaining(Capped(dataset, maxSamples), start), prompt, describe);
            var prefix := BatchOps(outputPath, prompt, FloorDiv(start, saveEvery), start,
                                   LoopAfter(start, saveEvery, FloorDiv(start, saveEvery), recs, k).flushed);
            var whole := Run(files, dataset, outputPath, maxSamples, saveEvery, prompt, describe);
            var resumed := Run(ApplyAll(files, prefix), dataset, outputPath, maxSamples, saveEvery, prompt, describe);
            && Load(ApplyAll(files, prefix), outputPath) == Success(start + k)
            && resumed.outcome == whole.outcome
            && whole.ops == prefix + resumed.ops
            && ApplyAll(ApplyAll(files, prefix), resumed.ops) == ApplyAll(files, whole.ops)
  {
    var recs := Records(Remaining(Capped(dataset, maxSamples), start), prompt, describe);
    var p0 := FloorDiv(start, saveEvery);
    var prefix := BatchOps(outputPath, prompt, p0, start, LoopAfter(start, saveEvery, p0, recs, k).flushed);
    var whole := Run(files, dataset, outputPath, maxSamples, saveEvery, prompt, describe);
    if k == 0 {
      assert prefix == [] && ApplyAll(files, prefix) == files;
      ResumeAlgebra(files, prefix, [], whole.ops, whole.outcome, whole, whole);
    } else {
      CheckpointAfterFlush(files, outputPath, prompt, start, saveEvery, recs, k);
      RestartAfterFlush(files, dataset, outputPath, maxSamples, start, saveEvery, prompt, describe, k, recs, prefix);
    }
  }

  /** The case k > 0 of RestartMatchesRun, once the restarted run is known to load start + k. */
  lemma RestartAfterFlush(files: Files, dataset: seq<Example>, outputPath: string, maxSamples: Option<int>, start: int,
                          saveEvery: int, prompt: Option<string>, describe: (Option<string>, Image) -> Described, k: nat,
                          recs: seq<Record>, prefix: seq<FileOp>)
    requires Load(files, outputPath) == Success(start) && start >= 0 && saveEvery > 0 && HasDirectory(outputPath)
    requires k <= |Remaining(Capped(dataset, maxSamples), start)|
    requires recs == Records(Remaining(Capped(dataset, maxSamples), start), prompt, describe)
    requires LoopAfter(start, saveEvery, FloorDiv(start, saveEvery), recs, k).results == []
    requires prefix == BatchOps(outputPath, prompt, FloorDiv(start, saveEvery), start,
                                LoopAfter(start, saveEvery, FloorDiv(start, saveEvery), recs, k).flushed)
    requires Load(ApplyAll(files, prefix), outputPath) == Success(start + k)
    ensures var whole := Run(files, dataset, outputPath, maxSamples, saveEvery, prompt, describe);
            var resumed := Run(ApplyAll(files, prefix), dataset, outputPath, maxSamples, saveEvery, prompt, describe);
            && resumed.outcome == whole.outcome
            && whole.ops == prefix + resumed.ops
            && ApplyAll(ApplyAll(files, prefix), resumed.ops) == ApplyAll(files, whole.ops)
  {
    ResumeFromCheckpoint(dataset, outputPath, maxSamples, start, saveEvery, prompt, describe, k);
    var rest := WrittenOps(outputPath, prompt, start + k, saveEvery,
                           Records(Remaining(Capped(dataset, maxSamples), start + k), prompt, describe));
    var written := WrittenOps(outputPath, prompt, start, saveEvery, recs);
    assert written == prefix + rest;
    ApplyAllAppend(files, prefix, rest);
    var finish := MergeAndCleanUp(ApplyAll(files, written), outputPath);
    RunAfterLoad(files, dataset, outputPath, maxSamples, start, saveEvery, prompt, describe);
    RunAfterLoad(ApplyAll(files, prefix), dataset, outputPath, maxSamples, start + k, saveEvery, prompt, describe);
    ResumeAlgebra(files, prefix, rest, finish.ops, finish.outcome,
                  Run(files, dataset, outputPath, maxSamples, saveEvery, prompt, describe),
                  Run(ApplyAll(files, prefix), dataset, outputPath, maxSamples, saveEvery, prompt, describe));
  }

  /** The bookkeeping of a resumed run: its operations are the whole run's after the prefix. */
  lemma ResumeAlgebra(files: Files, prefix: seq<FileOp>, rest: seq<FileOp>, finishOps: seq<FileOp>, outcome: Outcome,
                      whole: Effect, resumed: Effect)
    requires whole == Effect(outcome, (prefix + rest) + finishOps) && resumed == Effect(outcome, rest + finishOps)
    ensures resumed.outcome == whole.outcome && whole.ops == prefix + resumed.ops
    ensures ApplyAll(ApplyAll(files, prefix), resumed.ops) == ApplyAll(files, whole.ops)
  {
    AppendAssociates(prefix, rest, finishOps);
    ApplyAllAppend(files, prefix, resumed.ops);
  }

  /**
   * A run with nothing left to caption (an empty dataset, max_samples = 0, or
   * a checkpoint at or past the end) and no part file on disk succeeds: it
   * writes the merged output with no prompt and no captions, then the
   * header-only summary, and leaves no checkpoint.
   */
  lemma NothingLeftToCaption(files: Files, dataset: seq<Example>, outputPath: string, maxSamples: Option<int>, start: int,
                             saveEvery: int, prompt: Option<string>, describe: (Option<string>, Image) -> Described)
    requires Load(files, outputPath) == Success(start) && saveEvery != 0 && HasDirectory(outputPath)
    requires Remaining(Capped(dataset, maxSamples), start) == []
    requires PartNames(files, outputPath) == {}
    ensures var e := Run(files, dataset, outputPath, maxSamples, saveEvery, prompt, describe);
            var after := ApplyAll(files, e.ops);
            && e.outcome == Pass
            && |e.ops| >= 2
            && e.ops[0] == Write(outputPath + ".json", Json(Doc(None, Some([]))))
            && e.ops[1] == Write(SummaryPath(outputPath + ".json"), Text(SummaryText([])))
            && outputPath + ".json" in after && after[outputPath + ".json"] == Json(Doc(None, Some([])))
            && GetPath(outputPath) !in after
  {
    var recs := Records(Remaining(Capped(dataset, maxSamples), start), prompt, describe);
    assert recs == [];
    NothingToWrite(outputPath, prompt, start, saveEvery);
    assert ApplyAll(files, []) == files;
    RunAfterLoad(files, dataset, outputPath, maxSamples, start, saveEvery, prompt, describe);
    var finish := MergeAndCleanUp(files, outputPath);
    assert [] + finish.ops == finish.ops;
    FinishWithNoParts(files, outputPath);
  }

  /** The end of a run on files that hold no part: the empty merged output and summary, and no checkpoint. */
  lemma FinishWithNoParts(files: Files, outputPath: string)
    requires PartNames(files, outputPath) == {} && HasDirectory(outputPath)
    ensures var finish := MergeAndCleanUp(files, outputPath);
            var after := ApplyAll(files, finish.ops);
            && finish.outcome == Pass
            && |finish.ops| >= 2
            && finish.ops[0] == Write(outputPath + ".json", Json(Doc(None, Some([]))))
            && finish.ops[1] == Write(SummaryPath(outputPath + ".json"), Text(SummaryText([])))
            && outputPath + ".json" in after && after[outputPath + ".json"] == Json(Doc(None, Some([])))
            && GetPath(outputPath) !in after
  {
    var out := outputPath + ".json";
    MergeOfNoParts(files, outputPath);
    CleanUpRemovesCheckpoint(files, outputPath);
    var finish := MergeAndCleanUp(files, outputPath);
    var written := Write(out, Json(Doc(None, Some([]))));
    var summary := Write(SummaryPath(out), Text(SummaryText([])));
    var merge := [written, summary];
    var cleanup := if GetPath(outputPath) in ApplyAll(files, merge) then [Remove(GetPath(outputPath))] else [];
    assert finish.ops == merge + cleanup;
    assert OccursAt(".json", out, |outputPath|);
    ReplaceLength(out, ".json", "_summary.txt");
    GetPathShape(outputPath);
    assert finish.ops == [written] + ([summary] + cleanup);
    FirstWriteKept(files, written, [summary] + cleanup);
  }

  /** A write that no later operation touches is what its file holds at the end. */
  lemma FirstWriteKept(files: Files, w: FileOp, rest: seq<FileOp>)
    requires w.Write? && forall q :: 0 <= q < |rest| ==> rest[q].path != w.path
    ensures w.path in ApplyAll(files, [w] + rest) && ApplyAll(files, [w] + rest)[w.path] == w.content
  {
    var ops := [w] + rest;
    assert forall q :: 0 < q < |ops| ==> ops[q] == rest[q - 1];
    ApplyAllLastWrite(files, ops, 0);
  }


  /**
   * A run whose leftover flush wrote a part leaves its checkpoint off a
   * save_every boundary, and a later run resumed from that checkpoint (with a
   * larger max_samples, say) numbers its first part as that leftover part:
   * its first write overwrites the leftover part file.
   */
  lemma LeftoverPartReused(outputPath: string, prompt: Option<string>, start: int, saveEvery: int,
                           recs: seq<Record>, more: seq<Record>)
    requires saveEvery > 0 && more != []
    requires LoopAfter(start, saveEvery, FloorDiv(start, saveEvery), recs, |recs|).results != []
    ensures var ops := WrittenOps(outputPath, prompt, start, saveEvery, recs);
            var next := WrittenOps(outputPath, prompt, start + |recs|, saveEvery, more);
            && (start + |recs|) % saveEvery != 0
            && |ops| >= 2 && |next| >= 2
            && ops[|ops| - 2].path == PartPath(outputPath, FloorDiv(start + |recs|, saveEvery))
            && next[0].path == ops[|ops| - 2].path
  {
    var p1 := FloorDiv(start + |recs|, saveEvery);
    LeftoverOffBoundary(start, saveEvery, recs);
    LastWrittenPart(outputPath, prompt, start, saveEvery, recs);
    FirstWrittenPart(outputPath, prompt, start + |recs|, saveEvery, more);
    var ops := WrittenOps(outputPath, prompt, start, saveEvery, recs);
    var next := WrittenOps(outputPath, prompt, start + |recs|, saveEvery, more);
    assert next[0].path == PartPath(outputPath, p1) == ops[|ops| - 2].path;
  }

  /** A run that ends with a leftover buffer stops at an absolute count that save_every does not divide. */
  lemma LeftoverOffBoundary(start: int, saveEvery: int, recs: seq<Record>)
    requires saveEvery != 0
    requires LoopAfter(start, saveEvery, FloorDiv(start, saveEvery), recs, |recs|).results != []
    ensures (start + |recs|) % saveEvery != 0
  {
    var k := |recs|;
    assert |LoopAfter(start, saveEvery, FloorDiv(start, saveEvery), recs, k).results| > 0;
    BufferOffBoundary(start, saveEvery, FloorDiv(start, saveEvery), recs, k, k);
  }

  /** A run whose leftover flush wrote a part: that last part is numbered (start + len) // save_every. */
  lemma LastWrittenPart(outputPath: string, prompt: Option<string>, start: int, saveEvery: int, recs: seq<Record>)
    requires saveEvery > 0
    requires LoopAfter(start, saveEvery, FloorDiv(start, saveEvery), recs, |recs|).results != []
    ensures var ops := WrittenOps(outputPath, prompt, start, saveEvery, recs);
            |ops| >= 2 && ops[|ops| - 2].path == PartPath(outputPath, FloorDiv(start + |recs|, saveEvery))
  {
    var p0 := FloorDiv(start, saveEvery);
    var s := LoopAfter(start, saveEvery, p0, recs, |recs|);
    var all := AllBatches(s);
    var n := |s.flushed|;
    NextPartIndex(start, saveEvery, recs, |recs|);
    LoopShape(start, saveEvery, p0, recs, |recs|);
    assert all == s.flushed + [s.results] && |all| == n + 1;
    var ops := WrittenOps(outputPath, prompt, start, saveEvery, recs);
    assert ops == BatchOps(outputPath, prompt, p0, start, all);
    BatchPairAt(outputPath, prompt, p0, start, all, n);
    assert |ops| == 2 * n + 2 && ops[2 * n].path == PartPath(outputPath, p0 + n);
  }

  /** A run with records to process writes its first part under number start // save_every. */
  lemma FirstWrittenPart(outputPath: string, prompt: Option<string>, start: int, saveEvery: int, recs: seq<Record>)
    requires saveEvery != 0 && recs != []
    ensures var ops := WrittenOps(outputPath, prompt, start, saveEvery, recs);
            |ops| >= 2 && ops[0].path == PartPath(outputPath, FloorDiv(start, saveEvery))
  {
    var p0 := FloorDiv(start, saveEvery);
    var all := AllBatches(LoopAfter(start, saveEvery, p0, recs, |recs|));
    BatchesCoverRecords(start, saveEvery, p0, recs);
    assert all != [];
    BatchPairAt(outputPath, prompt, p0, start, all, 0);
  }


  /** A run that completes leaves no checkpoint behind. */
  lemma CheckpointRemovedOnSuccess(files: Files, dataset: seq<Example>, outputPath: string, maxSamples: Option<int>,
                                   saveEvery: int, prompt: Option<string>, describe: (Option<string>, Image) -> Described)
    requires Run(files, dataset, outputPath, maxSamples, saveEvery, prompt, describe).outcome.Pass?
    ensures GetPath(outputPath) !in ApplyAll(files, Run(files, dataset, outputPath, maxSamples, saveEvery, prompt, describe).ops)
  {
    assert Load(files, outputPath).Success? && saveEvery != 0;
    var start := Load(files, outputPath).value;
    var recs := Records(Remaining(Capped(dataset, maxSamples), start), prompt, describe);
    assert !(|recs| > 0 && !HasDirectory(outputPath));
    var written := WrittenOps(outputPath, prompt, start, saveEvery, recs);
    var finish := MergeAndCleanUp(ApplyAll(files, written), outputPath);
    CleanUpRemovesCheckpoint(ApplyAll(files, written), outputPath);
    ApplyAllAppend(files, written, finish.ops);
  }

  /** A merge that succeeds is followed by the removal of the checkpoint, when there is one. */
  lemma CleanUpRemovesCheckpoint(files: Files, outputPath: string)
    requires MergeAndCleanUp(files, outputPath).outcome.Pass?
    ensures GetPath(outputPath) !in ApplyAll(files, MergeAndCleanUp(files, outputPath).ops)
  {
    var merge := MergeEffect(files, outputPath, outputPath + ".json", true, false, true);
    if GetPath(outputPath) in ApplyAll(files, merge.ops) {
      ApplyAllSnoc(files, merge.ops, Remove(GetPath(outputPath)));
    } else {
      assert merge.ops + [] == merge.ops;
    }
  }

  // ---------------------------------------------------------------------
  // The default merge on the loop's own parts

  /** Every file the part glob of base lists holds a JSON object. */
  ghost predicate PartsAreJson(files: Files, base: string) {
    forall p :: p in files && MatchesPartGlob(p, base) ==> files[p].Json?
  }

  /** The checkpoint file ends in ".checkpoint", so the part glob never lists it. */
  lemma CheckpointIsNotAPart(outputPath: string)
    ensures !MatchesPartGlob(GetPath(outputPath), outputPath)
  {
    var p := GetPath(outputPath);
    GetPathShape(outputPath);
    if |outputPath + ".part"| + 5 <= |p| {
      assert p[|p| - 5..] == "point";
    }
  }

  /** The loop's writes keep every listed part a JSON object. */
  lemma {:induction false} WrittenPartsAreJson(files: Files, outputPath: string, prompt: Option<string>, firstPart: int,
                                               start: int, batches: seq<seq<Record>>)
    requires PartsAreJson(files, outputPath)
    ensures PartsAreJson(ApplyAll(files, BatchOps(outputPath, prompt, firstPart, start, batches)), outputPath)
    decreases |batches|
  {
    if batches != [] {
      var n := |batches| - 1;
      var before := BatchOps(outputPath, prompt, firstPart, start, batches[..n]);
      var pair := [Write(PartPath(outputPath, firstPart + n), PartDoc(prompt, batches[n])),
                   Write(GetPath(outputPath), Text(Render(start + |Flatten(batches)|)))];
      WrittenPartsAreJson(files, outputPath, prompt, firstPart, start, batches[..n]);
      assert BatchOps(outputPath, prompt, firstPart, start, batches) == before + pair;
      ApplyAllAppend(files, before, pair);
      var mid := ApplyAll(files, before);
      assert ApplyAll(mid, pair) == Apply(Apply(mid, pair[0]), pair[1]) by {
        assert pair == [pair[0]] + [pair[1]] && [pair[0]] == [] + [pair[0]];
        ApplyAllSnoc(mid, [pair[0]], pair[1]);
        ApplyAllSnoc(mid, [], pair[0]);
      }
      WriteKeepsPartsJson(mid, outputPath, pair[0].path, pair[0].content);
      CheckpointIsNotAPart(outputPath);
      WriteKeepsPartsJson(Apply(mid, pair[0]), outputPath, pair[1].path, pair[1].content);
    }
  }

  lemma WriteKeepsPartsJson(files: Files, base: string, path: string, content: Content)
    requires PartsAreJson(files, base)
    requires content.Json? || !MatchesPartGlob(path, base)
    ensures PartsAreJson(files[path := content], base)
  {
  }

  /** A position in the concatenation of the batches falls in one of them. */
  lemma {:induction false} FlattenLocate(batches: seq<seq<Record>>, j: nat) returns (n: nat, i: nat)
    requires j < |Flatten(batches)|
    ensures n < |batches| && i < |batches[n]| && batches[n][i] == Flatten(batches)[j]
    decreases |batches|
  {
    var m := |batches| - 1;
    var init := Flatten(batches[..m]);
    if j < |init| {
      n, i := FlattenLocate(batches[..m], j);
    } else {
      n, i := m, j - |init|;
    }
  }

  /**
   * Each batch's part file still holds that batch after all the writes: no
   * later part has its number and the checkpoint is another file.
   */
  lemma PartSurvives(files: Files, outputPath: string, prompt: Option<string>, firstPart: int, start: int,
                     batches: seq<seq<Record>>, n: nat)
    requires n < |batches|
    ensures var after := ApplyAll(files, BatchOps(outputPath, prompt, firstPart, start, batches));
            && PartPath(outputPath, firstPart + n) in after
            && after[PartPath(outputPath, firstPart + n)] == PartDoc(prompt, batches[n])
  {
    var ops := BatchOps(outputPath, prompt, firstPart, start, batches);
    BatchPairAt(outputPath, prompt, firstPart, start, batches, n);
    forall j | 2 * n < j < |ops|
      ensures ops[j].path != PartPath(outputPath, firstPart + n)
    {
      LaterOpElsewhere(outputPath, prompt, firstPart, start, batches, n, j);
    }
    ApplyAllLastWrite(files, ops, 2 * n);
  }

  /** No operation after batch n's part write touches that part's path. */
  lemma LaterOpElsewhere(outputPath: string, prompt: Option<string>, firstPart: int, start: int,
                         batches: seq<seq<Record>>, n: nat, j: nat)
    requires n < |batches| && 2 * n < j < |BatchOps(outputPath, prompt, firstPart, start, batches)|
    ensures BatchOps(outputPath, prompt, firstPart, start, batches)[j].path != PartPath(outputPath, firstPart + n)
  {
    OpPathAt(outputPath, prompt, firstPart, start, batches, j);
    if j % 2 == 0 {
      var m := j / 2;
      assert 2 * m == j;
      PartPathsDiffer(outputPath, firstPart + m, firstPart + n);
    } else {
      ConcatTwo(outputPath, ".checkpoint");
      PartPathIsNotCheckpoint(outputPath, firstPart + n);
    }
  }

  lemma PartPathsDiffer(base: string, a: int, b: int)
    requires a != b
    ensures PartPath(base, a) != PartPath(base, b)
  {
    if PartPath(base, a) == PartPath(base, b) {
      PartPathInjective(base, a, b);
    }
  }

  /** Even positions write batch parts, odd ones the checkpoint. */
  lemma OpPathAt(outputPath: string, prompt: Option<string>, firstPart: int, start: int,
                 batches: seq<seq<Record>>, j: nat)
    requires j < |BatchOps(outputPath, prompt, firstPart, start, batches)|
    ensures BatchOps(outputPath, prompt, firstPart, start, batches)[j].path
            == if j % 2 == 0 then PartPath(outputPath, firstPart + j / 2) else GetPath(outputPath)
  {
    BatchOpsLength(outputPath, prompt, firstPart, start, batches);
    var m := j / 2;
    BatchPairAt(outputPath, prompt, firstPart, start, batches, m);
    assert j == 2 * m || j == 2 * m + 1;
  }

  /** After the loop, every record the loop made is among the captions the merge reads. */
  lemma CaptionReachesMerge(files: Files, outputPath: string, prompt: Option<string>, start: int, saveEvery: int,
                            recs: seq<Record>, j: nat)
    requires saveEvery != 0 && j < |recs| && PartsAreJson(files, outputPath)
    ensures var after := ApplyAll(files, WrittenOps(outputPath, prompt, start, saveEvery, recs));
            var docs := ReadDocs(after, PartFiles(after, outputPath));
            && docs.Success?
            && exists k :: 0 <= k < |AllCaptions(docs.value)| && AllCaptions(docs.value)[k] == recs[j]
  {
    var firstPart := FloorDiv(start, saveEvery);
    var batches := AllBatches(LoopAfter(start, saveEvery, firstPart, recs, |recs|));
    var after := ApplyAll(files, WrittenOps(outputPath, prompt, start, saveEvery, recs));
    BatchesCoverRecords(start, saveEvery, firstPart, recs);
    var n, i := FlattenLocate(batches, j);
    PartSurvives(files, outputPath, prompt, firstPart, start, batches, n);
    WrittenPartsAreJson(files, outputPath, prompt, firstPart, start, batches);
    PartPathMatchesGlob(outputPath, firstPart + n);
    MergeReadsPart(after, outputPath, PartPath(outputPath, firstPart + n), prompt, batches[n], i);
  }

  /** When every listed part is JSON, the merge reads every caption of every listed part. */
  lemma MergeReadsPart(files: Files, base: string, path: string, prompt: Option<string>, batch: seq<Record>, i: nat)
    requires PartsAreJson(files, base) && path in files && MatchesPartGlob(path, base)
    requires files[path] == PartDoc(prompt, batch) && i < |batch|
    ensures var docs := ReadDocs(files, PartFiles(files, base));
            && docs.Success?
            && exists k :: 0 <= k < |AllCaptions(docs.value)| && AllCaptions(docs.value)[k] == batch[i]
  {
    var names := PartNames(files, base);
    var parts := PartFiles(files, base);
    SortedListsSet(names);
    forall q | 0 <= q < |parts|
      ensures parts[q] in files && files[parts[q]].Json?
    {
      assert parts[q] in names;
    }
    var docs := ReadDocs(files, parts).value;
    assert path in names;
    var q :| 0 <= q < |parts| && parts[q] == path;
    assert files[parts[q]] == Json(docs[q]);
    CaptionsOfPart(docs, q, prompt, batch, i);
  }

  /** A part's captions sit, in order, inside all the captions read. */
  lemma CaptionsOfPart(docs: seq<Doc>, q: nat, prompt: Option<string>, batch: seq<Record>, i: nat)
    requires q < |docs| && docs[q] == Doc(prompt, Some(batch)) && i < |batch|
    ensures exists k :: 0 <= k < |AllCaptions(docs)| && AllCaptions(docs)[k] == batch[i]
  {
    AllCaptionsBlock(docs, q);
    var before := AllCaptions(docs[..q]);
    var after := AllCaptions(docs[q + 1..]);
    assert CaptionsOf(docs[q]) == batch;
    assert (before + batch + after)[|before| + i] == batch[i];
  }

  /**
   * The parts on disk after the loop, when there were none before: exactly
   * one per batch, numbered on from the first part.
   */
  lemma RunPartNames(files: Files, outputPath: string, prompt: Option<string>, firstPart: int, start: int,
                     batches: seq<seq<Record>>)
    requires PartNames(files, outputPath) == {}
    ensures ListsRange(ApplyAll(files, BatchOps(outputPath, prompt, firstPart, start, batches)), outputPath,
                       firstPart, |batches|)
  {
    var after := ApplyAll(files, BatchOps(outputPath, prompt, firstPart, start, batches));
    var range := PartRange(outputPath, firstPart, |batches|);
    forall p
      ensures p in PartNames(after, outputPath) <==> p in range
    {
      if p in PartNames(after, outputPath) {
        WrittenPartInRange(files, outputPath, prompt, firstPart, start, batches, p);
      }
      if p in range {
        RangePartListed(files, outputPath, prompt, firstPart, start, batches, p);
      }
    }
  }

  /** Every part the loop wrote is still there, and the glob lists it. */
  lemma RangePartListed(files: Files, outputPath: string, prompt: Option<string>, firstPart: int, start: int,
                        batches: seq<seq<Record>>, p: string)
    requires p in PartRange(outputPath, firstPart, |batches|)
    ensures p in PartNames(ApplyAll(files, BatchOps(outputPath, prompt, firstPart, start, batches)), outputPath)
  {
    var range := PartRange(outputPath, firstPart, |batches|);
    var n :| 0 <= n < |batches| && range[n] == p;
    PartSurvives(files, outputPath, prompt, firstPart, start, batches, n);
    PartPathMatchesGlob(outputPath, firstPart + n);
  }

  /** A part listed after the loop, when none was listed before, is one the loop wrote. */
  lemma WrittenPartInRange(files: Files, outputPath: string, prompt: Option<string>, firstPart: int, start: int,
                           batches: seq<seq<Record>>, p: string)
    requires PartNames(files, outputPath) == {}
    requires p in PartNames(ApplyAll(files, BatchOps(outputPath, prompt, firstPart, start, batches)), outputPath)
    ensures p in PartRange(outputPath, firstPart, |batches|)
  {
    var ops := BatchOps(outputPath, prompt, firstPart, start, batches);
    assert forall q :: q in files && MatchesPartGlob(q, outputPath) ==> q in PartNames(files, outputPath);
    var k := NewPathWritten(files, ops, p);
    OpPathAt(outputPath, prompt, firstPart, start, batches, k);
    CheckpointIsNotAPart(outputPath);
    assert k % 2 == 0;
    BatchOpsLength(outputPath, prompt, firstPart, start, batches);
    assert PartRange(outputPath, firstPart, |batches|)[k / 2] == p;
  }

  /** The glob lists exactly the parts numbered first, ..., first + count - 1. */
  ghost predicate ListsRange(files: Files, outputPath: string, first: int, count: nat) {
    forall p :: p in PartNames(files, outputPath) <==> p in PartRange(outputPath, first, count)
  }

  /** The parts numbered on from first hold the batches, in order. */
  ghost predicate RangeHolds(files: Files, outputPath: string, prompt: Option<string>, first: int,
                             batches: seq<seq<Record>>) {
    forall n :: 0 <= n < |batches| ==>
      PartRange(outputPath, first, |batches|)[n] in files
      && files[PartRange(outputPath, first, |batches|)[n]] == PartDoc(prompt, batches[n])
  }

  /** The captions of the parts, read in numeric order, are the batches one after the other. */
  lemma {:induction false} RangeCaptions(files: Files, outputPath: string, prompt: Option<string>, firstPart: int,
                                         batches: seq<seq<Record>>)
    requires RangeHolds(files, outputPath, prompt, firstPart, batches)
    ensures AllJson(files, PartRange(outputPath, firstPart, |batches|))
    ensures CaptionsAt(files, PartRange(outputPath, firstPart, |batches|)) == Flatten(batches)
    decreases |batches|
  {
    if batches != [] {
      var m := |batches| - 1;
      var range := PartRange(outputPath, firstPart, |batches|);
      assert range[..m] == PartRange(outputPath, firstPart, m);
      RangeCaptions(files, outputPath, prompt, firstPart, batches[..m]);
    }
  }

  /**
   * What the merge reads after a run that found no part on disk: one part
   * per batch, numbered on from start // save_every, and every record the
   * loop made, as often as the loop made it and no other. When all the part
   * numbers are single digits the names sort in numeric order, and the
   * merged captions are the records in order; from part 10 on they are not
   * (`MergeOrderIsLexicographic`).
   */
  lemma MergedCaptionsOfRun(files: Files, outputPath: string, prompt: Option<string>, start: int, saveEvery: int,
                            recs: seq<Record>)
    requires saveEvery != 0 && PartNames(files, outputPath) == {}
    ensures var firstPart := FloorDiv(start, saveEvery);
            var count := |AllBatches(LoopAfter(start, saveEvery, firstPart, recs, |recs|))|;
            var after := ApplyAll(files, WrittenOps(outputPath, prompt, start, saveEvery, recs));
            var docs := ReadDocs(after, PartFiles(after, outputPath));
            && PartNames(after, outputPath) == (set k | firstPart <= k < firstPart + count :: PartPath(outputPath, k))
            && docs.Success?
            && multiset(AllCaptions(docs.value)) == multiset(recs)
            && (0 <= firstPart && firstPart + count <= 10 ==> AllCaptions(docs.value) == recs)
  {
    var firstPart := FloorDiv(start, saveEvery);
    var batches := AllBatches(LoopAfter(start, saveEvery, firstPart, recs, |recs|));
    assert WrittenOps(outputPath, prompt, start, saveEvery, recs) == BatchOps(outputPath, prompt, firstPart, start, batches);
    BatchesCoverRecords(start, saveEvery, firstPart, recs);
    MergedBatches(files, outputPath, prompt, firstPart, start, batches);
  }

  /** The same for any run of batches written from a given part number on. */
  lemma MergedBatches(files: Files, outputPath: string, prompt: Option<string>, firstPart: int, start: int,
                      batches: seq<seq<Record>>)
    requires PartNames(files, outputPath) == {}
    ensures var after := ApplyAll(files, BatchOps(outputPath, prompt, firstPart, start, batches));
            var docs := ReadDocs(after, PartFiles(after, outputPath));
            && PartNames(after, outputPath) == (set k | firstPart <= k < firstPart + |batches| :: PartPath(outputPath, k))
            && docs.Success?
            && multiset(AllCaptions(docs.value)) == multiset(Flatten(batches))
            && (0 <= firstPart && firstPart + |batches| <= 10 ==> AllCaptions(docs.value) == Flatten(batches))
  {
    var after := ApplyAll(files, BatchOps(outputPath, prompt, firstPart, start, batches));
    RunPartNames(files, outputPath, prompt, firstPart, start, batches);
    PartNamesAsSet(after, outputPath, firstPart, |batches|);
    RunPartsHold(files, outputPath, prompt, firstPart, start, batches);
    RangeCaptions(after, outputPath, prompt, firstPart, batches);
    MergedListing(after, outputPath, firstPart, |batches|);
  }

  /** After the loop, the n-th part of the range holds the n-th batch. */
  lemma RunPartsHold(files: Files, outputPath: string, prompt: Option<string>, firstPart: int, start: int,
                     batches: seq<seq<Record>>)
    ensures RangeHolds(ApplyAll(files, BatchOps(outputPath, prompt, firstPart, start, batches)), outputPath, prompt,
                       firstPart, batches)
  {
    var after := ApplyAll(files, BatchOps(outputPath, prompt, firstPart, start, batches));
    var range := PartRange(outputPath, firstPart, |batches|);
    forall n | 0 <= n < |batches|
      ensures range[n] in after && after[range[n]] == PartDoc(prompt, batches[n])
    {
      PartSurvives(files, outputPath, prompt, firstPart, start, batches, n);
    }
  }

  /** A set with the members of the part range is the set of those part names. */
  lemma PartNamesAsSet(files: Files, outputPath: string, firstPart: int, count: nat)
    requires ListsRange(files, outputPath, firstPart, count)
    ensures PartNames(files, outputPath) == (set k | firstPart <= k < firstPart + count :: PartPath(outputPath, k))
  {
    var names := PartNames(files, outputPath);
    var range := PartRange(outputPath, firstPart, count);
    var named := set k | firstPart <= k < firstPart + count :: PartPath(outputPath, k);
    forall p | p in names
      ensures p in named
    {
      var n :| 0 <= n < count && range[n] == p;
      assert PartPath(outputPath, firstPart + n) == p;
    }
    forall p | p in named
      ensures p in names
    {
      var k :| firstPart <= k < firstPart + count && PartPath(outputPath, k) == p;
      assert range[k - firstPart] == p;
    }
  }

  /**
   * The merge lists the part range in `sorted()` order: the captions it
   * reads are those of the range in some order, and in numeric order when
   * every number is a single digit.
   */
  lemma MergedListing(files: Files, outputPath: string, firstPart: int, count: nat)
    requires AllJson(files, PartRange(outputPath, firstPart, count))
    requires ListsRange(files, outputPath, firstPart, count)
    ensures var docs := ReadDocs(files, PartFiles(files, outputPath));
            && docs.Success?
            && multiset(AllCaptions(docs.value)) == multiset(CaptionsAt(files, PartRange(outputPath, firstPart, count)))
            && (0 <= firstPart && firstPart + count <= 10 ==>
                  AllCaptions(docs.value) == CaptionsAt(files, PartRange(outputPath, firstPart, count)))
  {
    var parts := PartFiles(files, outputPath);
    var range := PartRange(outputPath, firstPart, count);
    ListingOfRange(files, outputPath, firstPart, count);
    forall q | 0 <= q < |parts|
      ensures parts[q] in files && files[parts[q]].Json?
    {
      assert parts[q] in multiset(range);
    }
    ReadCaptionsAt(files, parts);
    CaptionsAtPermuted(files, parts, range);
  }

  /** `sorted(glob(...))` lists the part range once each, and in numeric order for single digits. */
  lemma ListingOfRange(files: Files, outputPath: string, firstPart: int, count: nat)
    requires ListsRange(files, outputPath, firstPart, count)
    ensures multiset(PartFiles(files, outputPath)) == multiset(PartRange(outputPath, firstPart, count))
    ensures 0 <= firstPart && firstPart + count <= 10 ==> PartFiles(files, outputPath) == PartRange(outputPath, firstPart, count)
  {
    var names := PartNames(files, outputPath);
    var parts := PartFiles(files, outputPath);
    var range := PartRange(outputPath, firstPart, count);
    SortedListsSet(names);
    IncreasingDistinct(parts);
    PartRangeDistinct(outputPath, firstPart, count);
    assert forall i, j :: 0 <= i < j < |range| ==> range[i] != range[j];
    assert forall x :: x in parts <==> x in range;
    ListingsPermute(parts, range);
    if 0 <= firstPart && firstPart + count <= 10 {
      PartRangeIncreasing(outputPath, firstPart, count);
      SortedIsUnique(range, names);
    }
  }

  /**
   * The merge `generate_captions` ends with keeps the default save_summary
   * and the records it wrote carry no label, so as soon as one item got a
   * non-empty caption the summary's `r["label"]` raises KeyError: the run
   * fails after writing its parts and the merged file, and before removing
   * any part or the checkpoint.
   */
  lemma DriverRaisesKeyError(files: Files, dataset: seq<Example>, outputPath: string, maxSamples: Option<int>,
                             saveEvery: int, prompt: Option<string>, describe: (Option<string>, Image) -> Described,
                             j: nat)
    requires Load(files, outputPath).Success? && saveEvery != 0 && HasDirectory(outputPath)
    requires PartsAreJson(files, outputPath)
    requires var items := Remaining(Capped(dataset, maxSamples), Load(files, outputPath).value);
             j < |items| && Truthy(CaptionFrom(describe(prompt, items[j].image)))
    ensures var e := Run(files, dataset, outputPath, maxSamples, saveEvery, prompt, describe);
            var start := Load(files, outputPath).value;
            var items := Remaining(Capped(dataset, maxSamples), start);
            var written := WrittenOps(outputPath, prompt, start, saveEvery, Records(items, prompt, describe));
            && e.outcome == Fail(KeyError)
            && |e.ops| == |written| + 1 && e.ops[..|written|] == written
            && e.ops[|written|].Write? && e.ops[|written|].path == outputPath + ".json"
  {
    var start := Load(files, outputPath).value;
    var items := Remaining(Capped(dataset, maxSamples), start);
    var recs := Records(items, prompt, describe);
    var written := WrittenOps(outputPath, prompt, start, saveEvery, recs);
    var after := ApplyAll(files, written);
    CaptionReachesMerge(files, outputPath, prompt, start, saveEvery, recs, j);
    var all := AllCaptions(ReadDocs(after, PartFiles(after, outputPath)).value);
    var k :| 0 <= k < |all| && all[k] == recs[j];
    DefaultMergeFails(after, outputPath, k);
    var merge := MergeEffect(after, outputPath, outputPath + ".json", true, false, true);
    assert |recs| > 0;
    assert MergeAndCleanUp(after, outputPath) == merge;
    assert (written + merge.ops)[..|written|] == written;
  }

  /**
   * `merge_caption_parts(output_path, output_path + ".json")` with its
   * defaults, on parts that hold a truthy caption without a label: the
   * merged file is written, then the summary raises KeyError.
   */
  lemma DefaultMergeFails(files: Files, outputPath: string, k: nat)
    requires ReadDocs(files, PartFiles(files, outputPath)).Success? && HasDirectory(outputPath)
    requires var all := AllCaptions(ReadDocs(files, PartFiles(files, outputPath)).value);
             k < |all| && Truthy(all[k].caption) && all[k].classLabel.None?
    ensures var e := MergeEffect(files, outputPath, outputPath + ".json", true, false, true);
            && e.outcome == Fail(KeyError)
            && |e.ops| == 1 && e.ops[0].Write? && e.ops[0].path == outputPath + ".json"
  {
    var outputFile := outputPath + ".json";
    assert HasDirectory(outputFile) by {
      assert outputFile[..|outputPath|] == outputPath;
    }
    var docs := ReadDocs(files, PartFiles(files, outputPath)).value;
    MergeRaisesKeyError(files, outputPath, outputFile, true, false, true);
    assert MergeEffect(files, outputPath, outputFile, true, false, true)
           == MergeWrites(outputFile, FirstPrompt(docs), AllCaptions(docs), PartFiles(files, outputPath), true, false, true);
  }

  // ---------------------------------------------------------------------
  // The methods

  /**
   * One flush of a buffer: `save_partial` with the next part number, then
   * `checkpoint.save` with the count so far, counted from the offset. The
   * ghost arguments name the writes before it: the batches flushed so far
   * and the file system and journal before the first of them.
   */
  method Flush(store: Store, outputPath: string, prompt: Option<string>, ghost firstPart: int, ghost start: int,
               ghost files0: Files, ghost journal0: seq<FileOp>, ghost flushed: seq<seq<Record>>,
               partIndex: int, results: seq<Record>, index: int) returns (r: Outcome)
    requires partIndex == firstPart + |flushed|
    requires index == start + |Flatten(flushed + [results])|
    requires store.journal == journal0 + BatchOps(outputPath, prompt, firstPart, start, flushed)
    requires store.files == ApplyAll(files0, BatchOps(outputPath, prompt, firstPart, start, flushed))
    modifies store
    ensures r == if HasDirectory(outputPath) then Pass else Fail(FileNotFoundError)
    ensures r.Pass? ==> store.journal == journal0 + BatchOps(outputPath, prompt, firstPart, start, flushed + [results])
    ensures r.Pass? ==> store.files == ApplyAll(files0, BatchOps(outputPath, prompt, firstPart, start, flushed + [results]))
    ensures r.Fail? ==> store.files == old(store.files) && store.journal == old(store.journal)
  {
    PartPathHasDirectory(outputPath, partIndex);
    r := SavePartial(store, outputPath, partIndex, prompt, results);
    if r.Pass? {
      Save(store, outputPath, index);
      ghost var written := BatchOps(outputPath, prompt, firstPart, start, flushed);
      ghost var ops := [Write(PartPath(outputPath, partIndex), PartDoc(prompt, results)),
                        Write(GetPath(outputPath), Text(Render(index)))];
      FlushOps(files0, outputPath, prompt, firstPart, start, flushed, results, index);
      AppendAssociates(journal0, written, ops);
      ApplyAllSnoc(ApplyAll(files0, written), [], ops[0]);
      assert [] + [ops[0]] == [ops[0]] && [ops[0]] + [ops[1]] == ops;
      ApplyAllSnoc(ApplyAll(files0, written), [ops[0]], ops[1]);
    }
  }

  /**
   * What holds after k items when nothing has failed: the variables are the
   * loop's after k items, and every flush so far has been written.
   */
  ghost predicate LoopInvariant(files0: Files, journal0: seq<FileOp>, files: Files, journal: seq<FileOp>,
                                outputPath: string, prompt: Option<string>, start: int, saveEvery: int,
                                firstPart: int, recs: seq<Record>, k: nat,
                                results: seq<Record>, partIndex: int, promptBase: Option<string>, flushed: seq<seq<Record>>)
  {
    && saveEvery != 0 && k <= |recs|
    && LoopAfter(start, saveEvery, firstPart, recs, k) == LoopState(results, partIndex, flushed)
    && partIndex == firstPart + |flushed|
    && promptBase == (if k == 0 then None else prompt)
    && (!HasDirectory(outputPath) ==> flushed == [])
    && journal == journal0 + BatchOps(outputPath, prompt, firstPart, start, flushed)
    && files == ApplyAll(files0, BatchOps(outputPath, prompt, firstPart, start, flushed))
  }

  /** One pass of the loop body: describe the item, buffer its record, flush when i + 1 is a multiple of save_every. */
  method ProcessItem(store: Store, outputPath: string, start: int, saveEvery: int, example: Example, i: int,
                     prompt: Option<string>, describe: (Option<string>, Image) -> Described,
                     results: seq<Record>, partIndex: int, promptBase: Option<string>,
                     ghost files0: Files, ghost journal0: seq<FileOp>, ghost firstPart: int, ghost recs: seq<Record>,
                     ghost k: nat, ghost flushed: seq<seq<Record>>)
    returns (r: Outcome, results': seq<Record>, partIndex': int, promptBase': Option<string>, ghost flushed': seq<seq<Record>>)
    requires k < |recs| && i == start + k && recs[k] == RecordFor(example, prompt, describe)
    requires LoopInvariant(files0, journal0, store.files, store.journal, outputPath, prompt, start, saveEvery,
                           firstPart, recs, k, results, partIndex, promptBase, flushed)
    modifies store
    ensures r.Fail? ==> r == Fail(FileNotFoundError) && !HasDirectory(outputPath)
    ensures r.Fail? ==> store.files == old(store.files) && store.journal == old(store.journal) && flushed == []
    ensures r.Pass? ==> LoopInvariant(files0, journal0, store.files, store.journal, outputPath, prompt, start, saveEvery,
                                      firstPart, recs, k + 1, results', partIndex', promptBase', flushed')
  {
    promptBase' := promptBase;
    if promptBase'.None? {
      promptBase' := prompt;
    }
    var caption := match describe(prompt, example.image)
      case Returned(c) => c
      case Raised => None;
    results' := results + [Record(example.id, prompt, caption, None)];
    LoopStep(start, saveEvery, firstPart, recs, k, i);
    partIndex' := partIndex;
    if (i + 1) % saveEvery == 0 {
      r, flushed' := FlushBuffer(store, outputPath, start, saveEvery, i, prompt, results', partIndex,
                                 files0, journal0, firstPart, recs, k, flushed);
      if r.Fail? {
        return;
      }
      partIndex' := partIndex + 1;
      results' := [];
    } else {
      r := Pass;
      flushed' := flushed;
    }
  }

  /** The flush inside the loop body, once save_every divides i + 1: part file, then checkpoint i + 1. */
  method FlushBuffer(store: Store, outputPath: string, start: int, saveEvery: int, i: int, prompt: Option<string>,
                     results: seq<Record>, partIndex: int,
                     ghost files0: Files, ghost journal0: seq<FileOp>, ghost firstPart: int, ghost recs: seq<Record>,
                     ghost k: nat, ghost flushed: seq<seq<Record>>)
    returns (r: Outcome, ghost flushed': seq<seq<Record>>)
    requires saveEvery != 0 && k < |recs| && i == start + k
    requires LoopAfter(start, saveEvery, firstPart, recs, k + 1) == LoopState([], partIndex + 1, flushed + [results])
    requires partIndex == firstPart + |flushed|
    requires store.journal == journal0 + BatchOps(outputPath, prompt, firstPart, start, flushed)
    requires store.files == ApplyAll(files0, BatchOps(outputPath, prompt, firstPart, start, flushed))
    modifies store
    ensures r == if HasDirectory(outputPath) then Pass else Fail(FileNotFoundError)
    ensures r.Fail? ==> store.files == old(store.files) && store.journal == old(store.journal)
    ensures flushed' == flushed + [results]
    ensures r.Pass? ==> LoopInvariant(files0, journal0, store.files, store.journal, outputPath, prompt, start, saveEvery,
                                      firstPart, recs, k + 1, [], partIndex + 1, prompt, flushed')
  {
    flushed' := flushed + [results];
    LoopCount(start, saveEvery, firstPart, recs, k + 1);
    assert i + 1 == start + |Flatten(flushed')|;
    r := Flush(store, outputPath, prompt, firstPart, start, files0, journal0, flushed, partIndex, results, i + 1);
  }

  /**
   * The enumerate loop over the remaining items, numbered from the offset.
   * It stops at the first part file that cannot be written, before
   * anything was written.
   */
  method EnumerateItems(store: Store, outputPath: string, start: int, saveEvery: int, firstPart: int, items: seq<Example>,
                        prompt: Option<string>, describe: (Option<string>, Image) -> Described)
    returns (r: Outcome, results: seq<Record>, partIndex: int, promptBase: Option<string>, ghost flushed: seq<seq<Record>>)
    requires saveEvery != 0
    modifies store
    ensures r.Fail? ==> r == Fail(FileNotFoundError) && |items| > 0 && !HasDirectory(outputPath)
    ensures r.Fail? ==> store.files == old(store.files) && store.journal == old(store.journal)
    ensures r.Pass? ==> LoopInvariant(old(store.files), old(store.journal), store.files, store.journal, outputPath, prompt,
                                      start, saveEvery, firstPart, Records(items, prompt, describe), |items|,
                                      results, partIndex, promptBase, flushed)
  {
    ghost var recs := Records(items, prompt, describe);
    flushed := [];
    results := [];
    partIndex := firstPart;
    promptBase := None;
    r := Pass;
    var k := 0;
    assert store.journal == old(store.journal) + [];
    while k < |items|
      invariant 0 <= k <= |items| && r.Pass?
      invariant LoopInvariant(old(store.files), old(store.journal), store.files, store.journal, outputPath, prompt,
                              start, saveEvery, firstPart, recs, k, results, partIndex, promptBase, flushed)
    {
      var i := start + k;
      r, results, partIndex, promptBase, flushed := ProcessItem(store, outputPath, start, saveEvery, items[k], i, prompt, describe,
        results, partIndex, promptBase, old(store.files), old(store.journal), firstPart, recs, k, flushed);
      if r.Fail? {
        return;
      }
      k := k + 1;
    }
  }

  /** The loop, then the flush of the leftover buffer (`if results:`). */
  method CaptionLoop(store: Store, outputPath: string, start: int, saveEvery: int, items: seq<Example>,
                     prompt: Option<string>, describe: (Option<string>, Image) -> Described) returns (r: Outcome)
    requires saveEvery != 0
    modifies store
    ensures r == if |items| > 0 && !HasDirectory(outputPath) then Fail(FileNotFoundError) else Pass
    ensures var ops := WrittenOps(outputPath, prompt, start, saveEvery, Records(items, prompt, describe));
            r.Pass? ==> store.journal == old(store.journal) + ops && store.files == ApplyAll(old(store.files), ops)
    ensures r.Fail? ==> store.files == old(store.files) && store.journal == old(store.journal)
  {
    ghost var recs := Records(items, prompt, describe);
    var results, partIndex, promptBase;
    ghost var flushed;
    var firstPart := FloorDiv(start, saveEvery);
    r, results, partIndex, promptBase, flushed := EnumerateItems(store, outputPath, start, saveEvery, firstPart, items, prompt, describe);
    if r.Fail? {
      return;
    }
    assert |recs| == |items|;
    LoopShape(start, saveEvery, firstPart, recs, |recs|);
    assert recs[..|recs|] == recs;
    if results != [] {
      FlattenSnoc(flushed, results);
      r := Flush(store, outputPath, promptBase, firstPart, start, old(store.files), old(store.journal),
                 flushed, partIndex, results, start + |items|);
      if r.Fail? {
        return;
      }
    } else {
      assert AllBatches(LoopState(results, partIndex, flushed)) == flushed;
    }
  }

  /**
   * `generate_captions`, from the dataset on: cap it, load the offset, skip
   * what is done, run the loop and the last flush, merge with the default
   * arguments, remove the checkpoint.
   */
  method GenerateCaptions(store: Store, dataset: seq<Example>, outputPath: string, maxSamples: Option<int>,
                          saveEvery: int, prompt: Option<string>, describe: (Option<string>, Image) -> Described)
    returns (r: Outcome)
    modifies store
    ensures var e := Run(old(store.files), dataset, outputPath, maxSamples, saveEvery, prompt, describe);
            && r == e.outcome
            && store.journal == old(store.journal) + e.ops
            && store.files == ApplyAll(old(store.files), e.ops)
  {
    var capped := Capped(dataset, maxSamples);
    var loaded := Load(store.files, outputPath);
    if loaded.Failure? {
      assert store.journal == old(store.journal) + [];
      return Fail(loaded.error);
    }
    var start := loaded.value;
    var items := Remaining(capped, start);
    if saveEvery == 0 {
      assert store.journal == old(store.journal) + [];
      return Fail(ZeroDivisionError);
    }
    ghost var recs := Records(items, prompt, describe);
    r := CaptionLoop(store, outputPath, start, saveEvery, items, prompt, describe);
    if r.Fail? {
      assert store.journal == old(store.journal) + [];
      return;
    }
    ghost var written := WrittenOps(outputPath, prompt, start, saveEvery, recs);
    ghost var finish := MergeAndCleanUp(store.files, outputPath);
    r := FinishRun(store, outputPath);
    AppendAssociates(old(store.journal), written, finish.ops);
    ApplyAllAppend(old(store.files), written, finish.ops);
  }

  /** The merge with the default arguments, then the removal of the checkpoint file if the merge succeeded. */
  method FinishRun(store: Store, outputPath: string) returns (r: Outcome)
    modifies store
    ensures var finish := MergeAndCleanUp(old(store.files), outputPath);
            && r == finish.outcome
            && store.journal == old(store.journal) + finish.ops
            && store.files == ApplyAll(old(store.files), finish.ops)
  {
    ghost var merge := MergeEffect(store.files, outputPath, outputPath + ".json", true, false, true);
    r := MergeCaptionParts(store, outputPath, outputPath + ".json", true, false, true);
    if r.Fail? {
      return;
    }
    var checkpointFile := GetPath(outputPath);
    if checkpointFile in store.files {
      store.Remove(checkpointFile);
      AppendAssociates(old(store.journal), merge.ops, [Remove(checkpointFile)]);
      ApplyAllSnoc(old(store.files), merge.ops, Remove(checkpointFile));
    } else {
      assert merge.ops + [] == merge.ops;
    }
  }
}
