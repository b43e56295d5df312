/**
 * Values shared by the caption pipeline: the optional and failure wrappers,
 * the kinds of Python exception the pipeline can end with, and the records
 * that travel through the JSON files.
 */
module Common {

  datatype Option<+T> = None | Some(value: T) {
    function GetOr(default: T): T {
      match this
      case Some(v) => v
      case None => default
    }
  }

  /** The exceptions that can end a run of the pipeline. */
  datatype Error =
    | ValueError          // int() on a malformed checkpoint, or an empty prepared dataset
    | ZeroDivisionError   // save_every == 0
    | KeyError            // a record without a "label" key, or a caption file without "captions"
    | FileNotFoundError   // os.makedirs("") for a path without a directory part
    | JsonDecodeError     // a part file whose content is not a JSON object

  /** A value, or the exception that was raised instead. */
  datatype Result<+T> = Success(value: T) | Failure(error: Error)

  /** The end of an operation that returns nothing (Python's None), or its exception. */
  datatype Outcome = Pass | Fail(error: Error)

  /** Raw image data, as the dataset stores it and as the converter re-encodes it. */
  type Image = seq<bv8>

  /** One example of the input dataset: its identifier and its image. */
  datatype Example = Example(id: string, image: Image)

  /**
   * One caption entry of a part file or of the merged file. `caption` is None
   * for JSON null; `classLabel` is None when the entry has no "label" key, which is
   * the case for every entry the caption driver writes.
   */
  datatype Record = Record(id: string, prompt: Option<string>, caption: Option<string>, classLabel: Option<string>)

  /**
   * A part file or the merged file: a JSON object with "prompt" and
   * "captions". A missing or null "prompt" reads as None; `captions` is None
   * when the key is missing.
   */
  datatype Doc = Doc(prompt: Option<string>, captions: Option<seq<Record>>)

  /** Python truthiness of a caption: neither None nor the empty string. */
  predicate Truthy(c: Option<string>) {
    c.Some? && c.value != ""
  }

  /** An f-string: its literal and substituted pieces, joined in order. */
  function Concat(pieces: seq<string>): string
    decreases |pieces|
  {
    if pieces == [] then [] else pieces[0] + Concat(pieces[1..])
  }

  lemma ConcatTwo(a: string, b: string)
    ensures Concat([a, b]) == a + b
  {
    assert [a, b][1..] == [b] && [b][1..] == [];
    assert Concat([b]) == b + [];
  }

  lemma ConcatFour(a: string, b: string, c: string, d: string)
    ensures Concat([a, b, c, d]) == a + b + c + d
  {
    var pieces := [a, b, c, d];
    assert pieces[1..] == [b, c, d] && [b, c, d][1..] == [c, d];
    ConcatTwo(c, d);
    assert Concat([b, c, d]) == b + (c + d);
  }

  /** os.path.dirname(p) is not empty exactly when p contains a separator. */
  predicate HasDirectory(p: string) {
    '/' in p
  }
}
