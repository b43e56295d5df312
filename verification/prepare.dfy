/**
 * The join at the heart of `prepare_hf_dataset`: every dataset example whose
 * id has an entry in the merged captions list is kept, with the caption of
 * the first such entry; then each kept item's image is re-encoded, an item
 * whose conversion fails keeping its image as it was.
 */
module PrepareDataset {
  import opened Common

  /** One row of the prepared dataset: `{"image": ..., "caption": ...}`. */
  datatype Item = Item(image: Image, caption: Option<string>)

  /**
   * `next((item for item in captions if item['id'] == id), None)`: the first
   * entry with the id, or None when there is none.
   */
  function FirstMatch(captions: seq<Record>, id: string): (r: Option<Record>)
    ensures r.None? <==> forall k :: 0 <= k < |captions| ==> captions[k].id != id
    ensures r.Some? ==> r.value.id == id && r.value in captions
    decreases |captions|
  {
    if captions == [] then None
    else if captions[0].id == id then Some(captions[0])
    else FirstMatch(captions[1..], id)
  }

  /** The entry found is the one at the first position with the id. */
  lemma {:induction false} FirstMatchIsFirst(captions: seq<Record>, id: string, k: nat)
    requires k < |captions| && captions[k].id == id
    requires forall j :: 0 <= j < k ==> captions[j].id != id
    ensures FirstMatch(captions, id) == Some(captions[k])
    decreases k
  {
    if k > 0 {
      FirstMatchIsFirst(captions[1..], id, k - 1);
    }
  }

  /** The generator, as the loop it is: scan the entries in order, stop at the first hit. */
  method FindCaption(captions: seq<Record>, id: string) returns (r: Option<Record>)
    ensures r == FirstMatch(captions, id)
  {
    var k := 0;
    while k < |captions|
      invariant 0 <= k <= |captions|
      invariant forall j :: 0 <= j < k ==> captions[j].id != id
    {
      if captions[k].id == id {
        FirstMatchIsFirst(captions, id, k);
        return Some(captions[k]);
      }
      k := k + 1;
    }
    return None;
  }

  /**
   * What one example contributes. A matching entry is a non-empty dict, so
   * `if caption_info:` always holds for it, whatever its caption, None
   * included.
   */
  function JoinOne(e: Example, captions: seq<Record>): seq<Item> {
    match FirstMatch(captions, e.id)
    case Some(entry) => [Item(e.image, entry.caption)]
    case None => []
  }

  /** `new_dataset` after the join loop over the examples, in dataset order. */
  function Joined(dataset: seq<Example>, captions: seq<Record>): (items: seq<Item>)
    ensures |items| <= |dataset|
    decreases |dataset|
  {
    if dataset == [] then []
    else Joined(dataset[..|dataset| - 1], captions) + JoinOne(dataset[|dataset| - 1], captions)
  }

  /** The join loop of `prepare_hf_dataset`. */
  method JoinCaptions(dataset: seq<Example>, captions: seq<Record>) returns (items: seq<Item>)
    ensures items == Joined(dataset, captions)
  {
    items := [];
    for k := 0 to |dataset|
      invariant items == Joined(dataset[..k], captions)
    {
      assert dataset[..k + 1][..k] == dataset[..k];
      var entry := FindCaption(captions, dataset[k].id);
      if entry.Some? {
        items := items + [Item(dataset[k].image, entry.value.caption)];
      }
    }
    assert dataset[..|dataset|] == dataset;
  }

  /** Joining two runs of examples joins each and keeps them in order. */
  lemma {:induction false} JoinedAppend(a: seq<Example>, b: seq<Example>, captions: seq<Record>)
    ensures Joined(a + b, captions) == Joined(a, captions) + Joined(b, captions)
    decreases |b|
  {
    if b == [] {
      assert a + b == a;
    } else {
      var init := b[..|b| - 1];
      assert (a + b)[..|a + b| - 1] == a + init;
      JoinedAppend(a, init, captions);
    }
  }

  /**
   * The example at position i, when it matches, is the item right after the
   * items of the examples before it, with its own image and the caption of
   * its first entry; when it does not match it adds nothing.
   */
  lemma JoinedAt(dataset: seq<Example>, captions: seq<Record>, i: nat)
    requires i < |dataset|
    ensures var before := Joined(dataset[..i], captions);
            var entry := FirstMatch(captions, dataset[i].id);
            && (entry.Some? ==> |before| < |Joined(dataset, captions)|
                                && Joined(dataset, captions)[|before|] == Item(dataset[i].image, entry.value.caption))
            && (entry.None? ==> Joined(dataset[..i + 1], captions) == before)
  {
    assert dataset == dataset[..i + 1] + dataset[i + 1..];
    JoinedAppend(dataset[..i + 1], dataset[i + 1..], captions);
    assert dataset[..i + 1][..i] == dataset[..i];
  }

  /** The join is empty exactly when no example's id has an entry. */
  lemma {:induction false} JoinedEmpty(dataset: seq<Example>, captions: seq<Record>)
    ensures Joined(dataset, captions) == [] <==>
            forall i, k :: 0 <= i < |dataset| && 0 <= k < |captions| ==> dataset[i].id != captions[k].id
    decreases |dataset|
  {
    if dataset != [] {
      var init := dataset[..|dataset| - 1];
      JoinedEmpty(init, captions);
      var last := dataset[|dataset| - 1];
      if FirstMatch(captions, last.id).Some? {
        var k :| 0 <= k < |captions| && captions[k].id == last.id;
        assert dataset[|dataset| - 1].id == captions[k].id;
      } else {
        forall i, k | 0 <= i < |dataset| && 0 <= k < |captions| && Joined(dataset, captions) == []
          ensures dataset[i].id != captions[k].id
        {
          if i < |dataset| - 1 {
            assert dataset[i] == init[i];
          }
        }
      }
    }
  }

  // ---------------------------------------------------------------------
  // The image check

  /** `item['image'] = img_to_bytes_dict(item['image'])`, the item left alone when the call raises. */
  function Converted(item: Item, convert: Image -> Option<Image>): Item {
    match convert(item.image)
    case Some(bytes) => item.(image := bytes)
    case None => item
  }

  function ConvertAll(items: seq<Item>, convert: Image -> Option<Image>): seq<Item> {
    seq(|items|, i requires 0 <= i < |items| => Converted(items[i], convert))
  }

  /**
   * The check keeps the number of items and every caption; an item whose
   * conversion fails is unchanged, and one whose conversion succeeds holds
   * the converted image.
   */
  lemma ConvertAllKeeps(items: seq<Item>, convert: Image -> Option<Image>, i: nat)
    requires i < |items|
    ensures |ConvertAll(items, convert)| == |items|
    ensures ConvertAll(items, convert)[i].caption == items[i].caption
    ensures convert(items[i].image).None? ==> ConvertAll(items, convert)[i] == items[i]
    ensures convert(items[i].image).Some? ==> ConvertAll(items, convert)[i].image == convert(items[i].image).value
  {
  }

  /** The image-check loop, in place over the prepared items. */
  method CheckImages(a: array<Item>, convert: Image -> Option<Image>)
    modifies a
    ensures a[..] == ConvertAll(old(a[..]), convert)
  {
    for k := 0 to a.Length
      invariant forall j :: 0 <= j < k ==> a[j] == Converted(old(a[j]), convert)
      invariant forall j :: k <= j < a.Length ==> a[j] == old(a[j])
    {
      a[k] := Converted(a[k], convert);
    }
  }

  // ---------------------------------------------------------------------
  // prepare_hf_dataset up to the dataset it builds

  /**
   * The items `prepare_hf_dataset` hands to `Dataset.from_list`, or the
   * exception it raises first: KeyError from `captions_data['captions']` when
   * the caption file has no "captions" and there is an example to look up,
   * ValueError when nothing matched.
   */
  function Prepare(dataset: seq<Example>, captionsData: Doc, convert: Image -> Option<Image>): Result<seq<Item>> {
    if |dataset| > 0 && captionsData.captions.None? then Failure(KeyError)
    else
      var joined := Joined(dataset, captionsData.captions.GetOr([]));
      if joined == [] then Failure(ValueError) else Success(ConvertAll(joined, convert))
  }

  method PrepareHfDataset(dataset: seq<Example>, captionsData: Doc, convert: Image -> Option<Image>) returns (r: Result<seq<Item>>)
    ensures r == Prepare(dataset, captionsData, convert)
  {
    if |dataset| > 0 && captionsData.captions.None? {
      return Failure(KeyError);
    }
    var joined := JoinCaptions(dataset, captionsData.captions.GetOr([]));
    if joined == [] {
      return Failure(ValueError);
    }
    var a := new Item[|joined|](i requires 0 <= i < |joined| => joined[i]);
    assert a[..] == joined;
    CheckImages(a, convert);
    return Success(a[..]);
  }

  /** A caption file without "captions" raises KeyError at the first example, or ValueError when there is none. */
  lemma PrepareWithoutCaptions(dataset: seq<Example>, prompt: Option<string>, convert: Image -> Option<Image>)
    ensures Prepare(dataset, Doc(prompt, None), convert) == Failure(if |dataset| > 0 then KeyError else ValueError)
  {
  }

  /**
   * The preparation fails with ValueError exactly when the caption list
   * matches no example's id, and otherwise yields between one item and one
   * item per example.
   */
  lemma PrepareOutcome(dataset: seq<Example>, captions: seq<Record>, prompt: Option<string>, convert: Image -> Option<Image>)
    ensures var r := Prepare(dataset, Doc(prompt, Some(captions)), convert);
            && (r == Failure(ValueError) <==>
                  forall i, k :: 0 <= i < |dataset| && 0 <= k < |captions| ==> dataset[i].id != captions[k].id)
            && (r.Success? ==> 0 < |r.value| <= |dataset|)
            && (r.Success? || r == Failure(ValueError))
  {
    JoinedEmpty(dataset, captions);
  }
}
