/**
 * Part files and their merge: `save_partial` writes one batch of caption
 * records as `<output>.part<N>.json`, and `merge_caption_parts` joins every
 * file matching `<base>.part*.json`, in Python's sorted (lexicographic) order,
 * into one document, with an optional CSV view, an optional label summary
 * and the removal of the parts.
 */
module CaptionParts {
  import opened Common
  import opened Decimal
  import opened Lexicographic
  import opened FileStore
  import opened LabelSummary

  /** The file `save_partial` writes for part number `index`. */
  function PartPath(outputPath: string, index: int): string {
    Concat([outputPath, ".part", Render(index), ".json"])
  }

  /** The JSON object of a part: `{"prompt": prompt, "captions": results}`. */
  function PartDoc(prompt: Option<string>, results: seq<Record>): Content {
    Json(Doc(prompt, Some(results)))
  }

  /**
   * `glob(base + ".part*.json")` lists path: it starts with `base.part`, ends
   * with `.json`, and the `*` between them matches no `/`.
   */
  predicate MatchesPartGlob(path: string, base: string) {
    var pre := base + ".part";
    && |pre| + 5 <= |path|
    && path[..|pre|] == pre
    && path[|path| - 5..] == ".json"
    && '/' !in path[|pre|..|path| - 5]
  }

  /**
   * `save_partial`: creates the part's directory, which fails for a path with
   * no directory part, then writes the part file, replacing any older one.
   */
  method SavePartial(store: Store, outputPath: string, partIndex: int, prompt: Option<string>, results: seq<Record>)
    returns (r: Outcome)
    modifies store
    ensures r == if HasDirectory(PartPath(outputPath, partIndex)) then Pass else Fail(FileNotFoundError)
    ensures r.Pass? ==> store.files == old(store.files)[PartPath(outputPath, partIndex) := PartDoc(prompt, results)]
    ensures r.Pass? ==> store.journal == old(store.journal) + [Write(PartPath(outputPath, partIndex), PartDoc(prompt, results))]
    ensures r.Fail? ==> store.files == old(store.files) && store.journal == old(store.journal)
  {
    var partFile := PartPath(outputPath, partIndex);
    if !HasDirectory(partFile) {
      return Fail(FileNotFoundError);
    }
    store.Write(partFile, PartDoc(prompt, results));
    return Pass;
  }

  /** The name of a part splits into the output path, ".part", str(index) and ".json". */
  lemma PartPathPieces(base: string, index: int)
    ensures var p := PartPath(base, index);
            && |p| == |base| + 5 + |Render(index)| + 5
            && p[..|base| + 5] == base + ".part"
            && p[|base| + 5..|p| - 5] == Render(index)
            && p[|p| - 5..] == ".json"
  {
    ConcatFour(base, ".part", Render(index), ".json");
  }

  /** The names of the parts numbered first, first + 1, ..., first + n - 1. */
  function PartRange(base: string, first: int, n: nat): (r: seq<string>)
    ensures |r| == n && forall k :: 0 <= k < n ==> r[k] == PartPath(base, first + k)
    decreases n
  {
    if n == 0 then [] else PartRange(base, first, n - 1) + [PartPath(base, first + n - 1)]
  }

  /** Consecutive part numbers name distinct files. */
  lemma PartRangeDistinct(base: string, first: int, n: nat)
    ensures forall i, j :: 0 <= i < j < n ==> PartRange(base, first, n)[i] != PartRange(base, first, n)[j]
  {
    var r := PartRange(base, first, n);
    forall i, j | 0 <= i < j < n
      ensures r[i] != r[j]
    {
      if r[i] == r[j] {
        PartPathInjective(base, first + i, first + j);
      }
    }
  }

  /** Single-digit part numbers, listed in numeric order, are listed in `sorted()` order. */
  lemma PartRangeIncreasing(base: string, first: int, n: nat)
    requires 0 <= first && first + n <= 10
    ensures StrictlyIncreasing(PartRange(base, first, n))
  {
    var r := PartRange(base, first, n);
    forall i, j | 0 <= i < j < n
      ensures Less(r[i], r[j])
    {
      SingleDigitPartsInOrder(base, first + i, first + j);
    }
  }

  /** Every part the driver writes is picked up by the merge's glob. */
  lemma PartPathMatchesGlob(base: string, index: int)
    ensures MatchesPartGlob(PartPath(base, index), base)
  {
    PartPathPieces(base, index);
    RenderCharacters(index);
    var p := PartPath(base, index);
    assert forall k :: 0 <= k < |Render(index)| ==> Render(index)[k] != '/';
  }

  /** Distinct part numbers give distinct files: no part overwrites another. */
  lemma PartPathInjective(base: string, a: int, b: int)
    requires PartPath(base, a) == PartPath(base, b)
    ensures a == b
  {
    PartPathPieces(base, a);
    PartPathPieces(base, b);
    RenderInjective(a, b);
  }

  /** A part file is never the checkpoint file. */
  lemma PartPathIsNotCheckpoint(base: string, index: int)
    ensures PartPath(base, index) != base + ".checkpoint"
  {
    ConcatFour(base, ".part", Render(index), ".json");
    var p := PartPath(base, index);
    assert p[|p| - 1] == 'n';
  }

  /** A part file has a directory part exactly when the output path has one. */
  lemma PartPathHasDirectory(base: string, index: int)
    ensures HasDirectory(PartPath(base, index)) <==> HasDirectory(base)
  {
    RenderCharacters(index);
    ConcatFour(base, ".part", Render(index), ".json");
    var suffix := ".part" + Render(index) + ".json";
    var p := PartPath(base, index);
    assert p == base + suffix;
    assert forall j :: 0 <= j < |suffix| ==> suffix[j] != '/';
    assert forall k :: 0 <= k < |base| ==> p[k] == base[k];
    assert forall k :: |base| <= k < |p| ==> p[k] == suffix[k - |base|];
  }

  /**
   * Python sorts the names as strings, so part 10 is listed before part 2 and
   * is merged first.
   */
  lemma Part10SortsBeforePart2(base: string)
    ensures Less(PartPath(base, 10), PartPath(base, 2))
  {
    ConcatFour(base, ".part", Render(10), ".json");
    ConcatFour(base, ".part", Render(2), ".json");
    assert Render(10) == "10";
    assert Render(2) == "2";
    assert PartPath(base, 10) == (base + ".part") + "10.json";
    assert PartPath(base, 2) == (base + ".part") + "2.json";
    CommonPrefix(base + ".part", "10.json", "2.json");
  }

  /** Parts 0 to 9 are listed in numeric order. */
  lemma SingleDigitPartsInOrder(base: string, a: int, b: int)
    requires 0 <= a < b < 10
    ensures Less(PartPath(base, a), PartPath(base, b))
  {
    var da, db := DigitChar(a), DigitChar(b);
    ConcatFour(base, ".part", Render(a), ".json");
    ConcatFour(base, ".part", Render(b), ".json");
    assert Render(a) == [da] && Render(b) == [db];
    assert PartPath(base, a) == (base + ".part") + ([da] + ".json");
    assert PartPath(base, b) == (base + ".part") + ([db] + ".json");
    CommonPrefix(base + ".part", [da] + ".json", [db] + ".json");
  }

  /** Python's `str.replace(old, new)`: every non-overlapping occurrence, left to right. */
  function ReplaceAll(s: string, pat: string, rep: string): string
    requires |pat| > 0
    decreases |s|
  {
    if |s| < |pat| then s
    else if s[..|pat|] == pat then rep + ReplaceAll(s[|pat|..], pat, rep)
    else [s[0]] + ReplaceAll(s[1..], pat, rep)
  }

  predicate OccursAt(pat: string, s: string, i: int) {
    0 <= i && i + |pat| <= |s| && s[i..i + |pat|] == pat
  }

  predicate Occurs(pat: string, s: string) {
    exists i :: 0 <= i <= |s| - |pat| && OccursAt(pat, s, i)
  }

  /** With no occurrence of the pattern the string is left as it is. */
  lemma {:induction false} ReplaceAbsent(s: string, pat: string, rep: string)
    requires |pat| > 0 && !Occurs(pat, s)
    ensures ReplaceAll(s, pat, rep) == s
    decreases |s|
  {
    if |s| >= |pat| {
      assert s[0..|pat|] == s[..|pat|];
      assert !OccursAt(pat, s, 0);
      assert !Occurs(pat, s[1..]) by {
        forall i | 0 <= i && i + |pat| <= |s[1..]|
          ensures !OccursAt(pat, s[1..], i)
        {
          assert s[1..][i..i + |pat|] == s[i + 1..i + 1 + |pat|];
          assert !OccursAt(pat, s, i + 1);
        }
      }
      ReplaceAbsent(s[1..], pat, rep);
    }
  }

  /**
   * An output name `o + ".json"`, with no ".json" inside o, has its only
   * ".json" replaced: the CSV view of "out.json" is "out.csv".
   */
  lemma {:induction false} ReplaceJsonSuffix(o: string, rep: string)
    requires !Occurs(".json", o)
    ensures ReplaceAll(o + ".json", ".json", rep) == o + rep
    decreases |o|
  {
    var s := o + ".json";
    if o == [] {
      assert s[..5] == ".json" && s[5..] == [];
    } else {
      assert s[..5] != ".json" by {
        if |o| >= 5 {
          assert o[0..5] == s[..5];
          assert !OccursAt(".json", o, 0);
        } else {
          assert s[..5][|o|] == s[|o|] == '.' && ".json"[|o|] != '.';
        }
      }
      assert !Occurs(".json", o[1..]) by {
        forall i | 0 <= i && i + 5 <= |o[1..]|
          ensures !OccursAt(".json", o[1..], i)
        {
          assert o[1..][i..i + 5] == o[i + 1..i + 6];
          assert !OccursAt(".json", o, i + 1);
        }
      }
      assert s[1..] == o[1..] + ".json";
      ReplaceJsonSuffix(o[1..], rep);
    }
  }

  /**
   * A replacement at least as long as the pattern never shortens the string,
   * and a longer one lengthens any string the pattern occurs in.
   */
  lemma {:induction false} ReplaceLength(s: string, pat: string, rep: string)
    requires 0 < |pat| <= |rep|
    ensures |ReplaceAll(s, pat, rep)| >= |s|
    ensures Occurs(pat, s) && |pat| < |rep| ==> |ReplaceAll(s, pat, rep)| > |s|
    decreases |s|
  {
    if |s| < |pat| {
    } else if s[..|pat|] == pat {
      ReplaceLength(s[|pat|..], pat, rep);
    } else {
      ReplaceLength(s[1..], pat, rep);
      if Occurs(pat, s) && |pat| < |rep| {
        var i :| 0 <= i <= |s| - |pat| && OccursAt(pat, s, i);
        assert i != 0;
        assert s[1..][i - 1..i - 1 + |pat|] == s[i..i + |pat|];
        assert OccursAt(pat, s[1..], i - 1);
      }
    }
  }

  /** The CSV view's path. */
  function CsvPath(outputFile: string): string {
    ReplaceAll(outputFile, ".json", ".csv")
  }

  /** The label summary's path. */
  function SummaryPath(outputFile: string): string {
    ReplaceAll(outputFile, ".json", "_summary.txt")
  }

  /**
   * `json.load` of each listed file, in order: the first file that is
   * missing or holds no JSON object stops the reading.
   */
  function ReadDocs(files: Files, paths: seq<string>): (r: Result<seq<Doc>>)
    ensures r.Success? <==> forall k :: 0 <= k < |paths| ==> paths[k] in files && files[paths[k]].Json?
    ensures r.Success? ==> |r.value| == |paths|
    ensures r.Failure? && (forall k :: 0 <= k < |paths| ==> paths[k] in files) ==> r.error == JsonDecodeError
    ensures r.Success? ==> forall k :: 0 <= k < |paths| ==> paths[k] in files && files[paths[k]] == Json(r.value[k])
    decreases |paths|
  {
    if paths == [] then Success([])
    else
      var p := paths[|paths| - 1];
      match ReadDocs(files, paths[..|paths| - 1])
      case Failure(e) => Failure(e)
      case Success(docs) =>
        if p !in files then Failure(FileNotFoundError)
        else if !files[p].Json? then Failure(JsonDecodeError)
        else Success(docs + [files[p].doc])
  }

  lemma {:induction false} ReadDocsPrefixFailure(files: Files, paths: seq<string>, i: nat)
    requires i <= |paths| && ReadDocs(files, paths[..i]).Failure?
    ensures ReadDocs(files, paths) == ReadDocs(files, paths[..i])
    decreases |paths|
  {
    if i < |paths| {
      var pre := paths[..|paths| - 1];
      assert pre[..i] == paths[..i];
      ReadDocsPrefixFailure(files, pre, i);
    } else {
      assert paths[..i] == paths;
    }
  }

  /** `prompt_ref` after the reading loop: it is set while it is still None. */
  function FirstPrompt(docs: seq<Doc>): Option<string>
    decreases |docs|
  {
    if docs == [] then None
    else
      var before := FirstPrompt(docs[..|docs| - 1]);
      if before.None? then docs[|docs| - 1].prompt else before
  }

  /** The merged prompt is the prompt of the first part that has one. */
  lemma {:induction false} FirstPromptIsFirst(docs: seq<Doc>, k: nat)
    requires k < |docs| && docs[k].prompt.Some?
    requires forall j :: 0 <= j < k ==> docs[j].prompt.None?
    ensures FirstPrompt(docs) == docs[k].prompt
    decreases |docs|
  {
    var pre := docs[..|docs| - 1];
    if k == |docs| - 1 {
      FirstPromptNone(pre);
    } else {
      FirstPromptIsFirst(pre, k);
    }
  }

  /** When no part has a prompt, the merged prompt is None. */
  lemma {:induction false} FirstPromptNone(docs: seq<Doc>)
    requires forall j :: 0 <= j < |docs| ==> docs[j].prompt.None?
    ensures FirstPrompt(docs) == None
    decreases |docs|
  {
    if docs != [] {
      FirstPromptNone(docs[..|docs| - 1]);
    }
  }

  /** `data.get("captions", [])`. */
  function CaptionsOf(d: Doc): seq<Record> {
    d.captions.GetOr([])
  }

  /** `all_captions` after the reading loop. */
  function AllCaptions(docs: seq<Doc>): seq<Record>
    decreases |docs|
  {
    if docs == [] then [] else AllCaptions(docs[..|docs| - 1]) + CaptionsOf(docs[|docs| - 1])
  }

  /** The merged captions of two runs of parts are the two concatenated. */
  lemma {:induction false} AllCaptionsAppend(a: seq<Doc>, b: seq<Doc>)
    ensures AllCaptions(a + b) == AllCaptions(a) + AllCaptions(b)
    decreases |b|
  {
    if b == [] {
      assert a + b == a;
    } else {
      assert (a + b)[..|a + b| - 1] == a + b[..|b| - 1];
      AllCaptionsAppend(a, b[..|b| - 1]);
    }
  }

  /** Part k's captions appear, as a block, at the position of the parts before it. */
  lemma AllCaptionsBlock(docs: seq<Doc>, k: nat)
    requires k < |docs|
    ensures AllCaptions(docs) == AllCaptions(docs[..k]) + CaptionsOf(docs[k]) + AllCaptions(docs[k + 1..])
  {
    AllCaptionsSplit(docs, k + 1);
    AllCaptionsPrefix(docs, k);
  }

  /** Cutting the listing after `n` parts cuts the merged captions there too. */
  lemma AllCaptionsSplit(docs: seq<Doc>, n: nat)
    requires n <= |docs|
    ensures AllCaptions(docs) == AllCaptions(docs[..n]) + AllCaptions(docs[n..])
  {
    assert docs == docs[..n] + docs[n..];
    AllCaptionsAppend(docs[..n], docs[n..]);
  }

  /** The first k + 1 parts merge to the first k followed by part k. */
  lemma AllCaptionsPrefix(docs: seq<Doc>, k: nat)
    requires k < |docs|
    ensures AllCaptions(docs[..k + 1]) == AllCaptions(docs[..k]) + CaptionsOf(docs[k])
  {
    assert docs[..k + 1][..k] == docs[..k];
  }

  /** Every path names a file that holds a JSON object. */
  predicate AllJson(files: Files, paths: seq<string>) {
    forall k :: 0 <= k < |paths| ==> paths[k] in files && files[paths[k]].Json?
  }

  /** The captions of the files at `paths`, one file after the other. */
  function CaptionsAt(files: Files, paths: seq<string>): seq<Record>
    requires AllJson(files, paths)
    decreases |paths|
  {
    if paths == [] then [] else CaptionsAt(files, paths[..|paths| - 1]) + CaptionsOf(files[paths[|paths| - 1]].doc)
  }

  /** The reading loop over JSON files succeeds and gathers the captions of those files, in listing order. */
  lemma {:induction false} ReadCaptionsAt(files: Files, paths: seq<string>)
    requires AllJson(files, paths)
    ensures ReadDocs(files, paths).Success?
    ensures AllCaptions(ReadDocs(files, paths).value) == CaptionsAt(files, paths)
    decreases |paths|
  {
    if paths != [] {
      var pre := paths[..|paths| - 1];
      var last := files[paths[|paths| - 1]].doc;
      ReadCaptionsAt(files, pre);
      var docs := ReadDocs(files, pre).value;
      assert ReadDocs(files, paths).value == docs + [last];
      assert (docs + [last])[..|docs|] == docs;
    }
  }

  lemma {:induction false} CaptionsAtAppend(files: Files, a: seq<string>, b: seq<string>)
    requires AllJson(files, a) && AllJson(files, b)
    ensures AllJson(files, a + b)
    ensures CaptionsAt(files, a + b) == CaptionsAt(files, a) + CaptionsAt(files, b)
    decreases |b|
  {
    if b == [] {
      assert a + b == a;
    } else {
      var pre := b[..|b| - 1];
      assert (a + b)[..|a + b| - 1] == a + pre;
      CaptionsAtAppend(files, a, pre);
    }
  }

  lemma CancelOne<T>(a: multiset<T>, b: multiset<T>, x: T)
    requires a + multiset{x} == b + multiset{x}
    ensures a == b
  {
    forall z
      ensures a[z] == b[z]
    {
      assert (a + multiset{x})[z] == (b + multiset{x})[z];
    }
  }

  /**
   * Listing the same files in another order only permutes the merged
   * captions: every record is read as many times either way.
   */
  lemma {:induction false} CaptionsAtPermuted(files: Files, xs: seq<string>, ys: seq<string>)
    requires AllJson(files, xs) && AllJson(files, ys) && multiset(xs) == multiset(ys)
    ensures multiset(CaptionsAt(files, xs)) == multiset(CaptionsAt(files, ys))
    decreases |xs|
  {
    if xs == [] {
      assert |ys| == |multiset(ys)| == 0;
    } else {
      var pre := xs[..|xs| - 1];
      var x := xs[|xs| - 1];
      assert xs == pre + [x];
      assert x in multiset(ys);
      var i :| 0 <= i < |ys| && ys[i] == x;
      var left, right := ys[..i], ys[i + 1..];
      SplitAt(files, ys, i);
      assert multiset(xs) == multiset(pre) + multiset{x};
      CancelOne(multiset(pre), multiset(left + right), x);
      CaptionsAtPermuted(files, pre, left + right);
      CaptionsAtAppend(files, left, right);
      CaptionsAtAppend(files, left, [x]);
      CaptionsAtAppend(files, left + [x], right);
      assert [x][..0] == [];
      var c := CaptionsOf(files[x].doc);
      assert CaptionsAt(files, xs) == CaptionsAt(files, pre) + c;
      assert CaptionsAt(files, ys) == CaptionsAt(files, left) + c + CaptionsAt(files, right);
      MovedBlock(CaptionsAt(files, pre), CaptionsAt(files, left), c, CaptionsAt(files, right));
    }
  }

  /** The listing cut around position i: the pieces are JSON files and hold what the listing holds. */
  lemma SplitAt(files: Files, ys: seq<string>, i: nat)
    requires AllJson(files, ys) && i < |ys|
    ensures ys == ys[..i] + [ys[i]] + ys[i + 1..]
    ensures AllJson(files, ys[..i]) && AllJson(files, [ys[i]]) && AllJson(files, ys[i + 1..])
    ensures multiset(ys) == multiset(ys[..i] + ys[i + 1..]) + multiset{ys[i]}
  {
    var left, right := ys[..i], ys[i + 1..];
    assert ys == left + [ys[i]] + right;
    assert multiset(left + right) == multiset(left) + multiset(right);
  }

  lemma MovedBlock<T>(a: seq<T>, b: seq<T>, c: seq<T>, d: seq<T>)
    requires multiset(a) == multiset(b + d)
    ensures multiset(a + c) == multiset(b + c + d)
  {
  }

  /** The parts the glob lists, as `sorted()` orders them. */
  ghost function PartNames(files: Files, base: string): set<string> {
    set p | p in files && MatchesPartGlob(p, base)
  }

  ghost function PartFiles(files: Files, base: string): seq<string> {
    Sorted(PartNames(files, base))
  }

  /** `os.remove` of each path, in order. */
  function Removals(paths: seq<string>): (ops: seq<FileOp>)
    ensures |ops| == |paths|
    decreases |paths|
  {
    if paths == [] then [] else Removals(paths[..|paths| - 1]) + [Remove(paths[|paths| - 1])]
  }

  lemma {:induction false} RemovalsRemove(files: Files, paths: seq<string>)
    ensures forall p :: p in ApplyAll(files, Removals(paths)) <==> p in files && p !in paths
    decreases |paths|
  {
    if paths != [] {
      var pre := paths[..|paths| - 1];
      RemovalsRemove(files, pre);
      assert paths == pre + [paths[|paths| - 1]];
    }
  }

  /** What a call did: how it ended and the file operations it made, in order. */
  datatype Effect = Effect(outcome: Outcome, ops: seq<FileOp>)

  /**
   * `merge_caption_parts(base_path, output_file, delete_parts, save_csv,
   * save_summary)`: read every part, then write the outputs.
   */
  ghost function MergeEffect(files: Files, basePath: string, outputFile: string,
                             deleteParts: bool, saveCsv: bool, saveSummary: bool): Effect
  {
    var parts := PartFiles(files, basePath);
    match ReadDocs(files, parts)
    case Failure(e) => Effect(Fail(e), [])
    case Success(docs) =>
      if !HasDirectory(outputFile) then Effect(Fail(FileNotFoundError), [])
      else MergeWrites(outputFile, FirstPrompt(docs), AllCaptions(docs), parts, deleteParts, saveCsv, saveSummary)
  }

  /**
   * What the merge writes once the parts are read: the merged document, then
   * the optional CSV view, then the rest. A KeyError from the CSV loop
   * leaves the rows written so far.
   */
  function MergeWrites(outputFile: string, promptRef: Option<string>, all: seq<Record>, parts: seq<string>,
                       deleteParts: bool, saveCsv: bool, saveSummary: bool): Effect
  {
    var head := MergeHead(outputFile, promptRef, all, saveCsv);
    if saveCsv && |CsvRows(all)| < |all| then Effect(Fail(KeyError), head)
    else
      var tail := MergeTail(outputFile, all, parts, deleteParts, saveSummary);
      Effect(tail.outcome, head + tail.ops)
  }

  /** The merged document, then the optional CSV view. */
  function MergeHead(outputFile: string, promptRef: Option<string>, all: seq<Record>, saveCsv: bool): seq<FileOp> {
    [Write(outputFile, Json(Doc(promptRef, Some(all))))]
    + (if saveCsv then [Write(CsvPath(outputFile), Csv(CsvRows(all)))] else [])
  }

  /**
   * The optional summary, then the removal of the parts. A KeyError from the
   * summary's Counter comes before its file is opened.
   */
  function MergeTail(outputFile: string, all: seq<Record>, parts: seq<string>, deleteParts: bool, saveSummary: bool): Effect {
    if saveSummary && Summary(all).Failure? then Effect(Fail(KeyError), [])
    else
      var summary := if saveSummary then [Write(SummaryPath(outputFile), Text(SummaryText(Summary(all).value)))] else [];
      Effect(Pass, summary + (if deleteParts then Removals(parts) else []))
  }

  /**
   * The reading loop: `prompt_ref` and `all_captions` over the listed parts,
   * or false at the first part that is not a JSON object.
   */
  method ReadParts(files: Files, partFiles: seq<string>) returns (ok: bool, promptRef: Option<string>, allCaptions: seq<Record>)
    requires forall k :: 0 <= k < |partFiles| ==> partFiles[k] in files
    ensures ok <==> ReadDocs(files, partFiles).Success?
    ensures ok ==> promptRef == FirstPrompt(ReadDocs(files, partFiles).value)
    ensures ok ==> allCaptions == AllCaptions(ReadDocs(files, partFiles).value)
    ensures !ok ==> ReadDocs(files, partFiles) == Failure(JsonDecodeError)
  {
    allCaptions := [];
    promptRef := None;
    ghost var docs: seq<Doc> := [];
    var i := 0;
    while i < |partFiles|
      invariant 0 <= i <= |partFiles|
      invariant ReadDocs(files, partFiles[..i]) == Success(docs)
      invariant promptRef == FirstPrompt(docs) && allCaptions == AllCaptions(docs)
    {
      var data := files[partFiles[i]];
      assert partFiles[..i + 1][..i] == partFiles[..i];
      if !data.Json? {
        ReadDocsPrefixFailure(files, partFiles, i + 1);
        return false, promptRef, allCaptions;
      }
      if promptRef.None? {
        promptRef := data.doc.prompt;
      }
      allCaptions := allCaptions + CaptionsOf(data.doc);
      docs := docs + [data.doc];
      i := i + 1;
    }
    assert partFiles[..i] == partFiles;
    return true, promptRef, allCaptions;
  }

  /** The deletion loop: removes each listed part, in order. */
  method DeleteParts(store: Store, partFiles: seq<string>)
    requires forall k :: 0 <= k < |partFiles| ==> partFiles[k] in store.files
    requires forall i, j :: 0 <= i < j < |partFiles| ==> partFiles[i] != partFiles[j]
    modifies store
    ensures store.journal == old(store.journal) + Removals(partFiles)
    ensures store.files == ApplyAll(old(store.files), Removals(partFiles))
  {
    var j := 0;
    while j < |partFiles|
      invariant 0 <= j <= |partFiles|
      invariant store.journal == old(store.journal) + Removals(partFiles[..j])
      invariant store.files == ApplyAll(old(store.files), Removals(partFiles[..j]))
      invariant forall k :: j <= k < |partFiles| ==> partFiles[k] in store.files
    {
      assert partFiles[..j + 1][..j] == partFiles[..j];
      ApplyAllSnoc(old(store.files), Removals(partFiles[..j]), Remove(partFiles[j]));
      store.Remove(partFiles[j]);
      j := j + 1;
    }
    assert partFiles[..j] == partFiles;
  }

  /** The optional CSV view: the header, then the rows up to the first record without a label. */
  method WriteCsvView(store: Store, outputFile: string, allCaptions: seq<Record>) returns (complete: bool)
    modifies store
    ensures complete <==> |CsvRows(allCaptions)| == |allCaptions|
    ensures store.files == ApplyAll(old(store.files), [Write(CsvPath(outputFile), Csv(CsvRows(allCaptions)))])
    ensures store.journal == old(store.journal) + [Write(CsvPath(outputFile), Csv(CsvRows(allCaptions)))]
  {
    var rows;
    rows, complete := WriteCsvRows(allCaptions);
    ApplyAllSnoc(store.files, [], Write(CsvPath(outputFile), Csv(rows)));
    store.Write(CsvPath(outputFile), Csv(rows));
  }

  /** The optional summary file. */
  method WriteSummaryFile(store: Store, outputFile: string, entries: seq<Entry>)
    modifies store
    ensures store.files == ApplyAll(old(store.files), [Write(SummaryPath(outputFile), Text(SummaryText(entries)))])
    ensures store.journal == old(store.journal) + [Write(SummaryPath(outputFile), Text(SummaryText(entries)))]
  {
    var text := WriteSummary(entries);
    ApplyAllSnoc(store.files, [], Write(SummaryPath(outputFile), Text(text)));
    store.Write(SummaryPath(outputFile), Text(text));
  }

  /** The summary and the deletion of the parts. */
  method WriteTail(store: Store, outputFile: string, allCaptions: seq<Record>,
                   partFiles: seq<string>, deleteParts: bool, saveSummary: bool) returns (r: Outcome)
    requires forall k :: 0 <= k < |partFiles| ==> partFiles[k] in store.files
    requires forall i, j :: 0 <= i < j < |partFiles| ==> partFiles[i] != partFiles[j]
    modifies store
    ensures var e := MergeTail(outputFile, allCaptions, partFiles, deleteParts, saveSummary);
            && r == e.outcome
            && store.journal == old(store.journal) + e.ops
            && store.files == ApplyAll(old(store.files), e.ops)
  {
    ghost var files0 := store.files;
    ghost var ops: seq<FileOp> := [];
    if saveSummary {
      var summary := Summary(allCaptions);
      if summary.Failure? {
        return Fail(KeyError);
      }
      WriteSummaryFile(store, outputFile, summary.value);
      ops := [Write(SummaryPath(outputFile), Text(SummaryText(summary.value)))];
    }
    if deleteParts {
      WritesKeepPaths(files0, ops);
      DeleteParts(store, partFiles);
      ApplyAllAppend(files0, ops, Removals(partFiles));
      ops := ops + Removals(partFiles);
    } else {
      assert ops + [] == ops;
    }
    return Pass;
  }

  /** The merged document and the optional CSV view; false when the CSV loop raised. */
  method WriteHead(store: Store, outputFile: string, promptRef: Option<string>, allCaptions: seq<Record>, saveCsv: bool)
    returns (complete: bool)
    modifies store
    ensures complete <==> !(saveCsv && |CsvRows(allCaptions)| < |allCaptions|)
    ensures store.journal == old(store.journal) + MergeHead(outputFile, promptRef, allCaptions, saveCsv)
    ensures store.files == ApplyAll(old(store.files), MergeHead(outputFile, promptRef, allCaptions, saveCsv))
  {
    ghost var files0 := store.files;
    ghost var ops := [Write(outputFile, Json(Doc(promptRef, Some(allCaptions))))];
    ApplyAllSnoc(files0, [], ops[0]);
    store.Write(outputFile, Json(Doc(promptRef, Some(allCaptions))));
    complete := true;
    if saveCsv {
      complete := WriteCsvView(store, outputFile, allCaptions);
      ghost var step := [Write(CsvPath(outputFile), Csv(CsvRows(allCaptions)))];
      ApplyAllAppend(files0, ops, step);
    } else {
      assert ops + [] == ops;
    }
  }

  /** Everything the merge does after reading the parts. */
  method WriteOutputs(store: Store, outputFile: string, promptRef: Option<string>, allCaptions: seq<Record>,
                      partFiles: seq<string>, deleteParts: bool, saveCsv: bool, saveSummary: bool) returns (r: Outcome)
    requires forall k :: 0 <= k < |partFiles| ==> partFiles[k] in store.files
    requires forall i, j :: 0 <= i < j < |partFiles| ==> partFiles[i] != partFiles[j]
    modifies store
    ensures var e := MergeWrites(outputFile, promptRef, allCaptions, partFiles, deleteParts, saveCsv, saveSummary);
            && r == e.outcome
            && store.journal == old(store.journal) + e.ops
            && store.files == ApplyAll(old(store.files), e.ops)
  {
    ghost var files0 := store.files;
    ghost var head := MergeHead(outputFile, promptRef, allCaptions, saveCsv);
    ghost var journal0 := store.journal;
    var complete := WriteHead(store, outputFile, promptRef, allCaptions, saveCsv);
    if !complete {
      return Fail(KeyError);
    }
    WritesKeepPaths(files0, head);
    assert forall k :: 0 <= k < |partFiles| ==> partFiles[k] in store.files;
    ghost var tail := MergeTail(outputFile, allCaptions, partFiles, deleteParts, saveSummary);
    r := WriteTail(store, outputFile, allCaptions, partFiles, deleteParts, saveSummary);
    ApplyAllAppend(files0, head, tail.ops);
    assert store.journal == journal0 + (head + tail.ops);
  }

  method MergeCaptionParts(store: Store, basePath: string, outputFile: string,
                           deleteParts: bool, saveCsv: bool, saveSummary: bool) returns (r: Outcome)
    modifies store
    ensures var e := MergeEffect(old(store.files), basePath, outputFile, deleteParts, saveCsv, saveSummary);
            && r == e.outcome
            && store.journal == old(store.journal) + e.ops
            && store.files == ApplyAll(old(store.files), e.ops)
  {
    var names := set p | p in store.files && MatchesPartGlob(p, basePath);
    assert names == PartNames(store.files, basePath);
    var partFiles := SortedPaths(names);
    SortedListsSet(names);
    IncreasingDistinct(partFiles);
    assert forall k :: 0 <= k < |partFiles| ==> partFiles[k] in names;

    var ok, promptRef, allCaptions := ReadParts(store.files, partFiles);
    if !ok {
      return Fail(JsonDecodeError);
    }
    if !HasDirectory(outputFile) {
      return Fail(FileNotFoundError);
    }
    r := WriteOutputs(store, outputFile, promptRef, allCaptions, partFiles, deleteParts, saveCsv, saveSummary);
  }

  /** A file the glob lists with no JSON object in it stops the merge before any write. */
  lemma MergeReadFailure(files: Files, base: string, outputFile: string, deleteParts: bool, saveCsv: bool, saveSummary: bool)
    requires exists p :: p in PartNames(files, base) && !files[p].Json?
    ensures MergeEffect(files, base, outputFile, deleteParts, saveCsv, saveSummary) == Effect(Fail(JsonDecodeError), [])
  {
    var names := PartNames(files, base);
    var parts := PartFiles(files, base);
    SortedListsSet(names);
    var p :| p in names && !files[p].Json?;
    var k :| 0 <= k < |parts| && parts[k] == p;
    assert forall j :: 0 <= j < |parts| ==> parts[j] in names;
  }

  /**
   * Once the parts are read, the merge fails only with a KeyError: from the
   * CSV view when a record has no label, from the summary when a captioned
   * record has no label.
   */
  lemma MergeRaisesKeyError(files: Files, base: string, outputFile: string, deleteParts: bool, saveCsv: bool, saveSummary: bool)
    requires ReadDocs(files, PartFiles(files, base)).Success? && HasDirectory(outputFile)
    ensures var all := AllCaptions(ReadDocs(files, PartFiles(files, base)).value);
            var e := MergeEffect(files, base, outputFile, deleteParts, saveCsv, saveSummary);
            && (e.outcome.Pass? || e.outcome == Fail(KeyError))
            && (e.outcome == Fail(KeyError) <==>
                  || (saveCsv && exists k :: 0 <= k < |all| && all[k].classLabel.None?)
                  || (saveSummary && exists k :: 0 <= k < |all| && Truthy(all[k].caption) && all[k].classLabel.None?))
  {
    var parts := PartFiles(files, base);
    var docs := ReadDocs(files, parts).value;
    assert MergeEffect(files, base, outputFile, deleteParts, saveCsv, saveSummary)
           == MergeWrites(outputFile, FirstPrompt(docs), AllCaptions(docs), parts, deleteParts, saveCsv, saveSummary);
    MergeWritesOutcome(outputFile, FirstPrompt(docs), AllCaptions(docs), parts, deleteParts, saveCsv, saveSummary);
  }

  /**
   * With no part file on disk, the merge with its default arguments reads
   * nothing and writes a merged document with no prompt and no captions, then
   * the header-only summary.
   */
  lemma MergeOfNoParts(files: Files, base: string)
    requires PartNames(files, base) == {} && HasDirectory(base)
    ensures MergeEffect(files, base, base + ".json", true, false, true)
            == Effect(Pass, [Write(base + ".json", Json(Doc(None, Some([])))),
                             Write(SummaryPath(base + ".json"), Text(SummaryText([])))])
  {
    SortedListsSet(PartNames(files, base));
    assert PartFiles(files, base) == [];
    var i :| 0 <= i < |base| && base[i] == '/';
    assert (base + ".json")[i] == '/';
    assert Summary([]) == Success([]);
  }

  /** The writes end in KeyError when the CSV loop or the summary raises it, and succeed otherwise. */
  lemma MergeWritesOutcome(outputFile: string, promptRef: Option<string>, all: seq<Record>, parts: seq<string>,
                           deleteParts: bool, saveCsv: bool, saveSummary: bool)
    ensures var o := MergeWrites(outputFile, promptRef, all, parts, deleteParts, saveCsv, saveSummary).outcome;
            && (o.Pass? || o == Fail(KeyError))
            && (o == Fail(KeyError) <==>
                  || (saveCsv && exists k :: 0 <= k < |all| && all[k].classLabel.None?)
                  || (saveSummary && exists k :: 0 <= k < |all| && Truthy(all[k].caption) && all[k].classLabel.None?))
  {
    var rows := CsvRows(all);
    assert |rows| < |all| <==> exists k :: 0 <= k < |all| && all[k].classLabel.None? by {
      if |rows| < |all| {
        assert all[|rows|].classLabel.None?;
      }
    }
    SummaryCharacterised(all);
  }

  /** After a successful merge the parts it read are gone exactly when delete_parts is set. */
  lemma MergeDeletesPartsOnlyWhenAsked(files: Files, base: string, outputFile: string, deleteParts: bool, saveCsv: bool, saveSummary: bool)
    requires MergeEffect(files, base, outputFile, deleteParts, saveCsv, saveSummary).outcome.Pass?
    ensures var after := ApplyAll(files, MergeEffect(files, base, outputFile, deleteParts, saveCsv, saveSummary).ops);
            forall p :: p in PartNames(files, base) ==> (p in after <==> !deleteParts)
  {
    var parts := PartFiles(files, base);
    var docs := ReadDocs(files, parts).value;
    assert MergeEffect(files, base, outputFile, deleteParts, saveCsv, saveSummary)
           == MergeWrites(outputFile, FirstPrompt(docs), AllCaptions(docs), parts, deleteParts, saveCsv, saveSummary);
    SortedListsSet(PartNames(files, base));
    MergeWritesDeleteParts(files, outputFile, FirstPrompt(docs), AllCaptions(docs), parts, deleteParts, saveCsv, saveSummary);
  }

  /** The successful writes keep every existing listed part unless delete_parts removes them all. */
  lemma MergeWritesDeleteParts(files: Files, outputFile: string, promptRef: Option<string>, all: seq<Record>, parts: seq<string>,
                               deleteParts: bool, saveCsv: bool, saveSummary: bool)
    requires MergeWrites(outputFile, promptRef, all, parts, deleteParts, saveCsv, saveSummary).outcome.Pass?
    ensures var after := ApplyAll(files, MergeWrites(outputFile, promptRef, all, parts, deleteParts, saveCsv, saveSummary).ops);
            forall p :: p in files && p in parts ==> (p in after <==> !deleteParts)
  {
    var writes := MergeHead(outputFile, promptRef, all, saveCsv)
                  + if saveSummary then [Write(SummaryPath(outputFile), Text(SummaryText(Summary(all).value)))] else [];
    var removals := if deleteParts then Removals(parts) else [];
    assert MergeWrites(outputFile, promptRef, all, parts, deleteParts, saveCsv, saveSummary).ops == writes + removals;
    assert forall k :: 0 <= k < |writes| ==> writes[k].Write?;
    WritesThenRemovals(files, writes, removals, parts, deleteParts);
  }

  /** Writes keep every file; the removals that follow, when asked for, drop exactly the listed ones. */
  lemma WritesThenRemovals(files: Files, writes: seq<FileOp>, rest: seq<FileOp>, parts: seq<string>, deleteParts: bool)
    requires forall k :: 0 <= k < |writes| ==> writes[k].Write?
    requires rest == if deleteParts then Removals(parts) else []
    ensures forall p :: p in files && p in parts ==> (p in ApplyAll(files, writes + rest) <==> !deleteParts)
  {
    WritesKeepPaths(files, writes);
    ApplyAllAppend(files, writes, rest);
    if deleteParts {
      RemovalsRemove(ApplyAll(files, writes), parts);
    } else {
      assert writes + rest == writes;
    }
  }

  /** With part2 and part10 both present, part10's captions are merged first. */
  lemma MergeOrderIsLexicographic(files: Files, base: string)
    requires PartPath(base, 2) in files && PartPath(base, 10) in files
    ensures var parts := PartFiles(files, base);
            exists i, j :: 0 <= i < j < |parts| && parts[i] == PartPath(base, 10) && parts[j] == PartPath(base, 2)
  {
    var names := PartNames(files, base);
    var parts := PartFiles(files, base);
    PartPathMatchesGlob(base, 2);
    PartPathMatchesGlob(base, 10);
    SortedListsSet(names);
    assert PartPath(base, 2) in names && PartPath(base, 10) in names;
    var i :| 0 <= i < |parts| && parts[i] == PartPath(base, 10);
    var j :| 0 <= j < |parts| && parts[j] == PartPath(base, 2);
    Part10SortsBeforePart2(base);
    if j < i {
      Asymmetric(PartPath(base, 10), PartPath(base, 2));
    }
    if i == j {
      Irreflexive(PartPath(base, 2));
    }
  }
}
