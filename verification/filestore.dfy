/**
 * The file system the pipeline writes to, as a map from path to content.
 * Directories are not modelled: a path is any string. A ghost journal keeps
 * every write and removal in order, so that the order of side effects (a
 * part file before the checkpoint that counts it) can be stated.
 */
module FileStore {
  import opened Common

  /** One row of the optional CSV view: the "id", "label" and "caption" columns. */
  datatype CsvRow = CsvRow(id: string, classLabel: string, caption: Option<string>)

  /**
   * What a file holds: plain text (the checkpoint, the label summary), a JSON
   * object with "prompt" and "captions" (a part file, the merged file), or
   * the rows of the CSV view after its header.
   */
  datatype Content = Text(text: string) | Json(doc: Doc) | Csv(rows: seq<CsvRow>)

  type Files = map<string, Content>

  /** A side effect on the file system: open(path, 'w') and write, or os.remove(path). */
  datatype FileOp = Write(path: string, content: Content) | Remove(path: string)

  function Apply(files: Files, op: FileOp): Files {
    match op
    case Write(p, c) => files[p := c]
    case Remove(p) => files - {p}
  }

  /** The file system after the operations, applied first to last. */
  function ApplyAll(files: Files, ops: seq<FileOp>): Files
    decreases |ops|
  {
    if ops == [] then files else Apply(ApplyAll(files, ops[..|ops| - 1]), ops[|ops| - 1])
  }

  lemma {:induction false} ApplyAllAppend(files: Files, a: seq<FileOp>, b: seq<FileOp>)
    ensures ApplyAll(files, a + b) == ApplyAll(ApplyAll(files, a), b)
    decreases |b|
  {
    if b == [] {
      assert a + b == a;
    } else {
      assert (a + b)[..|a + b| - 1] == a + b[..|b| - 1];
      ApplyAllAppend(files, a, b[..|b| - 1]);
    }
  }

  lemma ApplyAllSnoc(files: Files, ops: seq<FileOp>, op: FileOp)
    ensures ApplyAll(files, ops + [op]) == Apply(ApplyAll(files, ops), op)
  {
    assert (ops + [op])[..|ops|] == ops;
  }

  /** Writes never make a file disappear. */
  lemma {:induction false} WritesKeepPaths(files: Files, ops: seq<FileOp>)
    requires forall k :: 0 <= k < |ops| ==> ops[k].Write?
    ensures files.Keys <= ApplyAll(files, ops).Keys
    decreases |ops|
  {
    if ops != [] {
      WritesKeepPaths(files, ops[..|ops| - 1]);
    }
  }

  /** A path no operation touches keeps its content. */
  lemma {:induction false} ApplyAllUntouched(files: Files, ops: seq<FileOp>, p: string)
    requires forall k :: 0 <= k < |ops| ==> ops[k].path != p
    ensures p in ApplyAll(files, ops) <==> p in files
    ensures p in files ==> ApplyAll(files, ops)[p] == files[p]
    decreases |ops|
  {
    if ops != [] {
      ApplyAllUntouched(files, ops[..|ops| - 1], p);
    }
  }

  /** A path that was not there before was put there by one of the operations. */
  lemma {:induction false} NewPathWritten(files: Files, ops: seq<FileOp>, p: string) returns (k: nat)
    requires p in ApplyAll(files, ops) && p !in files
    ensures k < |ops| && ops[k].path == p
    decreases |ops|
  {
    assert ops != [];
    var n := |ops| - 1;
    if ops[n].path == p {
      k := n;
    } else {
      k := NewPathWritten(files, ops[..n], p);
    }
  }

  /** The content of a path is the one its last write left, unless a removal followed. */
  lemma {:induction false} ApplyAllLastWrite(files: Files, ops: seq<FileOp>, k: nat)
    requires k < |ops| && ops[k].Write?
    requires forall j :: k < j < |ops| ==> ops[j].path != ops[k].path
    ensures ops[k].path in ApplyAll(files, ops)
    ensures ApplyAll(files, ops)[ops[k].path] == ops[k].content
    decreases |ops|
  {
    if k < |ops| - 1 {
      ApplyAllLastWrite(files, ops[..|ops| - 1], k);
    }
  }

  class Store {
    var files: Files
    ghost var journal: seq<FileOp>

    constructor (initial: Files)
      ensures files == initial && journal == []
    {
      files := initial;
      journal := [];
    }

    /** open(path, 'w') followed by a write: creates or overwrites the file. */
    method Write(path: string, content: Content)
      modifies this
      ensures files == old(files)[path := content]
      ensures journal == old(journal) + [FileOp.Write(path, content)]
    {
      files := files[path := content];
      journal := journal + [FileOp.Write(path, content)];
    }

    /** os.remove(path); the pipeline only removes files it has seen exist. */
    method Remove(path: string)
      requires path in files
      modifies this
      ensures files == old(files) - {path}
      ensures journal == old(journal) + [FileOp.Remove(path)]
    {
      files := files - {path};
      journal := journal + [FileOp.Remove(path)];
    }
  }
}
