/**
 * The resume marker of a caption run: a text file next to the output that
 * holds the number of items already flushed to part files.
 */
module Checkpoint {
  import opened Common
  import opened Decimal
  import opened FileStore

  /** The checkpoint file of an output path. */
  function GetPath(outputPath: string): string {
    Concat([outputPath, ".checkpoint"])
  }

  /** The checkpoint path is the output path with ".checkpoint" after it. */
  lemma GetPathShape(outputPath: string)
    ensures |GetPath(outputPath)| == |outputPath| + 11 && GetPath(outputPath)[..|outputPath|] == outputPath
    ensures GetPath(outputPath)[|outputPath|..] == ".checkpoint"
  {
    ConcatTwo(outputPath, ".checkpoint");
  }

  /**
   * The resume offset: 0 when there is no checkpoint file, otherwise the
   * integer its stripped text denotes. Content that is not plain text (a
   * JSON object, CSV rows) is never an integer literal.
   */
  function Load(files: Files, outputPath: string): (r: Result<int>)
    ensures GetPath(outputPath) !in files ==> r == Success(0)
    ensures r.Success? && GetPath(outputPath) in files ==>
              files[GetPath(outputPath)].Text? && ParseInt(files[GetPath(outputPath)].text) == r
  {
    var p := GetPath(outputPath);
    if p !in files then Success(0)
    else match files[p]
      case Text(t) => ParseInt(t)
      case _ => Failure(ValueError)
  }

  /** Writes str(index) to the checkpoint file, replacing whatever it held. */
  method Save(store: Store, outputPath: string, index: int)
    modifies store
    ensures store.files == old(store.files)[GetPath(outputPath) := Text(Render(index))]
    ensures store.journal == old(store.journal) + [Write(GetPath(outputPath), Text(Render(index)))]
  {
    store.Write(GetPath(outputPath), Text(Render(index)));
  }

  /** Loading right after saving n gives n back. */
  lemma LoadAfterSave(files: Files, outputPath: string, n: int)
    ensures Load(files[GetPath(outputPath) := Text(Render(n))], outputPath) == Success(n)
  {
    RenderParse(n);
  }

  /** Of two saves the later one wins. */
  lemma LastSaveWins(files: Files, outputPath: string, m: int, n: int)
    ensures Load(files[GetPath(outputPath) := Text(Render(m))][GetPath(outputPath) := Text(Render(n))], outputPath) == Success(n)
  {
    LoadAfterSave(files[GetPath(outputPath) := Text(Render(m))], outputPath, n);
  }

  /** A write to any other path leaves the loaded offset as it was. */
  lemma LoadIgnoresOtherPaths(files: Files, outputPath: string, p: string, c: Content)
    requires p != GetPath(outputPath)
    ensures Load(files[p := c], outputPath) == Load(files, outputPath)
  {
  }

  /** Whitespace around the number, as an editor might leave it, is ignored. */
  lemma LoadIgnoresSpace(files: Files, outputPath: string, before: string, n: int, after: string)
    requires forall k :: 0 <= k < |before| ==> IsSpace(before[k])
    requires forall k :: 0 <= k < |after| ==> IsSpace(after[k])
    ensures Load(files[GetPath(outputPath) := Text(before + Render(n) + after)], outputPath) == Success(n)
  {
    ParseIgnoresSurroundingSpace(before, Render(n), after);
    RenderParse(n);
  }

  /** Distinct output paths have distinct checkpoint files. */
  lemma GetPathInjective(a: string, b: string)
    requires GetPath(a) == GetPath(b)
    ensures a == b
  {
    GetPathShape(a);
    GetPathShape(b);
    assert a == GetPath(a)[..|a|];
  }
}
