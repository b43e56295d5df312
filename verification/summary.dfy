/**
 * The optional views of the merged captions: the per-label summary
 * (`Counter(...).most_common()` over the captioned records) and the CSV rows
 * of (id, label, caption). Both read the "label" key of each record, which
 * the caption driver never writes.
 */
module LabelSummary {
  import opened Common
  import opened Decimal
  import opened FileStore

  /** One line of the summary: a label and how many captioned records carry it. */
  datatype Entry = Entry(classLabel: string, count: nat)

  /** Number of records whose caption is truthy and whose label is l. */
  function CaptionedWithLabel(records: seq<Record>, l: string): nat
    decreases |records|
  {
    if records == [] then 0
    else (if Truthy(records[0].caption) && records[0].classLabel == Some(l) then 1 else 0)
         + CaptionedWithLabel(records[1..], l)
  }

  /**
   * `[item["label"] for item in records if item["caption"]]`: the labels of
   * the captioned records, in order; a captioned record without a label
   * raises KeyError.
   */
  function CaptionedLabels(records: seq<Record>): (r: Result<seq<string>>)
    ensures r.Failure? <==> exists k :: 0 <= k < |records| && Truthy(records[k].caption) && records[k].classLabel.None?
    ensures r.Failure? ==> r.error == KeyError
    decreases |records|
  {
    if records == [] then Success([])
    else
      var head := records[0];
      if Truthy(head.caption) && head.classLabel.None? then Failure(KeyError)
      else
        match CaptionedLabels(records[1..])
        case Failure(e) => Failure(e)
        case Success(ls) =>
          Success(if Truthy(head.caption) then [head.classLabel.value] + ls else ls)
  }

  /** Position of the first occurrence of l in ls, or |ls| when there is none. */
  function FirstIndex(ls: seq<string>, l: string): (r: nat)
    ensures r <= |ls|
    ensures r < |ls| <==> l in ls
    ensures r < |ls| ==> ls[r] == l
    decreases |ls|
  {
    if ls == [] then 0 else if ls[0] == l then 0 else 1 + FirstIndex(ls[1..], l)
  }

  lemma {:induction false} FirstIndexIsFirst(ls: seq<string>, l: string, k: nat)
    requires k < |ls| && ls[k] == l
    ensures FirstIndex(ls, l) <= k
    decreases |ls|
  {
    if ls[0] != l {
      FirstIndexIsFirst(ls[1..], l, k - 1);
    }
  }

  /** Counter's `self[l] += 1`: bump an existing entry in place, or append a new one. */
  function Bump(t: seq<Entry>, l: string): seq<Entry>
    decreases |t|
  {
    if t == [] then [Entry(l, 1)]
    else if t[0].classLabel == l then [Entry(l, t[0].count + 1)] + t[1..]
    else [t[0]] + Bump(t[1..], l)
  }

  /** `Counter(ls)`, its entries in first-insertion order. */
  function Tally(ls: seq<string>): seq<Entry>
    decreases |ls|
  {
    if ls == [] then [] else Bump(Tally(ls[..|ls| - 1]), ls[|ls| - 1])
  }

  /**
   * Insert x in front of the first entry whose count is not larger: a
   * stable insertion for a descending order when x came first.
   */
  function Insert(x: Entry, ys: seq<Entry>): seq<Entry>
    decreases |ys|
  {
    if ys == [] then [x]
    else if ys[0].count <= x.count then [x] + ys
    else [ys[0]] + Insert(x, ys[1..])
  }

  /** `most_common()`: `sorted(items, key=count, reverse=True)`, which is stable. */
  function MostCommon(t: seq<Entry>): seq<Entry>
    decreases |t|
  {
    if t == [] then [] else Insert(t[0], MostCommon(t[1..]))
  }

  /** The summary's entries, or the KeyError building them raises. */
  function Summary(records: seq<Record>): Result<seq<Entry>> {
    match CaptionedLabels(records)
    case Failure(e) => Failure(e)
    case Success(ls) => Success(MostCommon(Tally(ls)))
  }

  /** The text of the `_summary.txt` file: a header, then one line per entry. */
  function SummaryText(entries: seq<Entry>): string {
    "\U{1F4CA} Label summary:\n" + SummaryLines(entries)
  }

  /** The line written for one entry. */
  function SummaryLine(e: Entry): string {
    e.classLabel + ": " + Render(e.count) + " samples\n"
  }

  function SummaryLines(entries: seq<Entry>): string
    decreases |entries|
  {
    if entries == [] then ""
    else SummaryLines(entries[..|entries| - 1]) + SummaryLine(entries[|entries| - 1])
  }

  /** Writes the header, then one line per entry in order. */
  method WriteSummary(entries: seq<Entry>) returns (text: string)
    ensures text == SummaryText(entries)
  {
    text := "\U{1F4CA} Label summary:\n";
    var i := 0;
    while i < |entries|
      invariant 0 <= i <= |entries|
      invariant text == SummaryText(entries[..i])
    {
      assert entries[..i + 1][..i] == entries[..i];
      text := text + SummaryLine(entries[i]);
      i := i + 1;
    }
    assert entries[..i] == entries;
  }

  /** The summary of the worked example. */
  lemma SummaryTextExample()
    ensures SummaryText([Entry("chair", 2)]) == "\U{1F4CA} Label summary:\nchair: 2 samples\n"
  {
    assert Render(2) == "2";
    assert [Entry("chair", 2)][..0] == [];
  }

  /**
   * The rows the CSV writer emits before it stops: one per record, up to
   * the first record without a label, where `item["label"]` raises KeyError.
   */
  function CsvRows(records: seq<Record>): (rows: seq<CsvRow>)
    ensures |rows| <= |records|
    ensures forall k :: 0 <= k < |rows| ==>
              records[k].classLabel.Some? && rows[k] == CsvRow(records[k].id, records[k].classLabel.value, records[k].caption)
    ensures |rows| < |records| ==> records[|rows|].classLabel.None?
    decreases |records|
  {
    if records == [] || records[0].classLabel.None? then []
    else [CsvRow(records[0].id, records[0].classLabel.value, records[0].caption)] + CsvRows(records[1..])
  }

  /**
   * The CSV loop: writes one row per record in order and stops at the first
   * record without a label; `complete` tells whether every record was written.
   */
  method WriteCsvRows(records: seq<Record>) returns (rows: seq<CsvRow>, complete: bool)
    ensures rows == CsvRows(records)
    ensures complete <==> |rows| == |records|
  {
    rows := [];
    var i := 0;
    while i < |records| && records[i].classLabel.Some?
      invariant 0 <= i <= |records| && |rows| == i
      invariant forall k :: 0 <= k < i ==>
                  records[k].classLabel.Some? && rows[k] == CsvRow(records[k].id, records[k].classLabel.value, records[k].caption)
    {
      rows := rows + [CsvRow(records[i].id, records[i].classLabel.value, records[i].caption)];
      i := i + 1;
    }
    CsvRowsUnique(records, rows);
    complete := i == |records|;
  }

  /** The rows before the first unlabelled record are the only ones the CSV view can hold. */
  lemma CsvRowsUnique(records: seq<Record>, rows: seq<CsvRow>)
    requires |rows| <= |records|
    requires forall k :: 0 <= k < |rows| ==>
               records[k].classLabel.Some? && rows[k] == CsvRow(records[k].id, records[k].classLabel.value, records[k].caption)
    requires |rows| < |records| ==> records[|rows|].classLabel.None?
    ensures rows == CsvRows(records)
  {
    var c := CsvRows(records);
    assert |c| == |rows| by {
      if |c| < |rows| {
        assert false;
      } else if |rows| < |c| {
        assert false;
      }
    }
  }

  /** e comes before f in `most_common()` order: a higher count, or the same count and an earlier first appearance. */
  ghost predicate Precedes(e: Entry, f: Entry, ls: seq<string>) {
    e.count > f.count || (e.count == f.count && FirstIndex(ls, e.classLabel) < FirstIndex(ls, f.classLabel))
  }

  ghost predicate OrderedBy(out: seq<Entry>, ls: seq<string>) {
    forall i, j :: 0 <= i < j < |out| ==> Precedes(out[i], out[j], ls)
  }

  /** Position of the entry for l in t, or |t| when l has none. */
  function EntryIndex(t: seq<Entry>, l: string): (r: nat)
    ensures r <= |t|
    ensures r < |t| ==> t[r].classLabel == l
    decreases |t|
  {
    if t == [] then 0 else if t[0].classLabel == l then 0 else 1 + EntryIndex(t[1..], l)
  }

  lemma {:induction false} EntryIndexIsFirst(t: seq<Entry>, l: string, k: nat)
    requires k < |t| && t[k].classLabel == l
    ensures EntryIndex(t, l) <= k
    decreases |t|
  {
    if t[0].classLabel != l {
      EntryIndexIsFirst(t[1..], l, k - 1);
    }
  }

  /** Counter's entries are listed in order of first appearance. */
  ghost predicate InFirstAppearanceOrder(t: seq<Entry>, ls: seq<string>) {
    forall i, j :: 0 <= i < j < |t| ==> FirstIndex(ls, t[i].classLabel) < FirstIndex(ls, t[j].classLabel)
  }

  /** What Counter(ls) holds: an entry for every label of ls, with its number of occurrences. */
  ghost predicate CountsOf(t: seq<Entry>, ls: seq<string>) {
    && (forall i :: 0 <= i < |t| ==> t[i].classLabel in ls && t[i].count == multiset(ls)[t[i].classLabel])
    && (forall l :: l in ls ==> EntryIndex(t, l) < |t|)
  }

  lemma CaptionedLabelsCount(records: seq<Record>, l: string)
    requires CaptionedLabels(records).Success?
    ensures multiset(CaptionedLabels(records).value)[l] == CaptionedWithLabel(records, l)
    decreases |records|
  {
    if records != [] {
      CaptionedLabelsCount(records[1..], l);
    }
  }

  lemma {:induction false} FirstIndexAppend(ls: seq<string>, x: string, l: string)
    ensures l in ls ==> FirstIndex(ls + [x], l) == FirstIndex(ls, l)
    ensures l !in ls && l == x ==> FirstIndex(ls + [x], l) == |ls|
    decreases |ls|
  {
    if ls != [] {
      assert (ls + [x])[1..] == ls[1..] + [x];
      FirstIndexAppend(ls[1..], x, l);
    }
  }

  /** Bumping a present label raises that entry's count only; a new label goes last. */
  lemma {:induction false} BumpShape(t: seq<Entry>, l: string)
    ensures var j := EntryIndex(t, l);
            Bump(t, l) == if j < |t| then t[j := Entry(l, t[j].count + 1)] else t + [Entry(l, 1)]
    decreases |t|
  {
    if t != [] && t[0].classLabel != l {
      BumpShape(t[1..], l);
      var j := EntryIndex(t[1..], l);
      if j < |t| - 1 {
        assert [t[0]] + t[1..][j := Entry(l, t[j + 1].count + 1)] == t[j + 1 := Entry(l, t[j + 1].count + 1)];
      } else {
        assert [t[0]] + (t[1..] + [Entry(l, 1)]) == t + [Entry(l, 1)];
      }
    }
  }

  /** Counting one more occurrence of a label already counted. */
  lemma TallyStepPresent(t: seq<Entry>, pre: seq<string>, x: string)
    requires CountsOf(t, pre) && InFirstAppearanceOrder(t, pre)
    requires x in pre
    ensures CountsOf(Bump(t, x), pre + [x]) && InFirstAppearanceOrder(Bump(t, x), pre + [x])
  {
    BumpShape(t, x);
    var j := EntryIndex(t, x);
    var t' := Bump(t, x);
    assert |t'| == |t| && forall i :: 0 <= i < |t| ==> t'[i].classLabel == t[i].classLabel;
    assert CountsOf(t', pre + [x]) by {
      forall i | 0 <= i < |t'|
        ensures t'[i].classLabel in pre + [x] && t'[i].count == multiset(pre + [x])[t'[i].classLabel]
      {
        BumpedEntry(t, pre, x, j, i);
      }
      forall l | l in pre + [x]
        ensures EntryIndex(t', l) < |t'|
      {
        EntryIndexIsFirst(t', l, EntryIndex(t, l));
      }
    }
    assert InFirstAppearanceOrder(t', pre + [x]) by {
      forall a, b | 0 <= a < b < |t'|
        ensures FirstIndex(pre + [x], t'[a].classLabel) < FirstIndex(pre + [x], t'[b].classLabel)
      {
        FirstIndexAppend(pre, x, t[a].classLabel);
        FirstIndexAppend(pre, x, t[b].classLabel);
      }
    }
  }

  lemma BumpedEntry(t: seq<Entry>, pre: seq<string>, x: string, j: nat, i: nat)
    requires CountsOf(t, pre) && InFirstAppearanceOrder(t, pre)
    requires j == EntryIndex(t, x) && x in pre && i < |t|
    ensures j < |t| && |Bump(t, x)| == |t|
    ensures Bump(t, x)[i].classLabel in pre + [x]
    ensures Bump(t, x)[i].count == multiset(pre + [x])[Bump(t, x)[i].classLabel]
  {
    BumpShape(t, x);
    assert multiset(pre + [x]) == multiset(pre) + multiset{x};
    if i != j && t[i].classLabel == x {
      EntryIndexIsFirst(t, x, i);
      assert false;
    }
  }

  /** Counting the first occurrence of a new label. */
  lemma TallyStepNew(t: seq<Entry>, pre: seq<string>, x: string)
    requires CountsOf(t, pre) && InFirstAppearanceOrder(t, pre)
    requires x !in pre
    ensures CountsOf(Bump(t, x), pre + [x]) && InFirstAppearanceOrder(Bump(t, x), pre + [x])
  {
    BumpShape(t, x);
    assert forall i :: 0 <= i < |t| ==> t[i].classLabel != x;
    AppendNewEntry(t, pre, x);
  }

  lemma AppendNewEntry(t: seq<Entry>, pre: seq<string>, x: string)
    requires CountsOf(t, pre) && InFirstAppearanceOrder(t, pre)
    requires x !in pre
    ensures CountsOf(t + [Entry(x, 1)], pre + [x]) && InFirstAppearanceOrder(t + [Entry(x, 1)], pre + [x])
  {
    var t' := t + [Entry(x, 1)];
    assert forall i :: 0 <= i < |t| ==> t'[i] == t[i];
    assert CountsOf(t', pre + [x]) by {
      assert multiset(pre + [x]) == multiset(pre) + multiset{x};
      forall i | 0 <= i < |t'|
        ensures t'[i].classLabel in pre + [x] && t'[i].count == multiset(pre + [x])[t'[i].classLabel]
      {
        if i < |t| {
          assert t[i].classLabel in pre;
        }
      }
      forall l | l in pre + [x]
        ensures EntryIndex(t', l) < |t'|
      {
        if l == x {
          EntryIndexIsFirst(t', l, |t|);
        } else {
          EntryIndexIsFirst(t', l, EntryIndex(t, l));
        }
      }
    }
    assert InFirstAppearanceOrder(t', pre + [x]) by {
      FirstIndexAppend(pre, x, x);
      forall a, b | 0 <= a < b < |t'|
        ensures FirstIndex(pre + [x], t'[a].classLabel) < FirstIndex(pre + [x], t'[b].classLabel)
      {
        assert t[a].classLabel in pre;
        FirstIndexAppend(pre, x, t[a].classLabel);
        if b < |t| {
          FirstIndexAppend(pre, x, t[b].classLabel);
        }
      }
    }
  }

  /** Counter(ls): an entry per label with its count, in order of first appearance. */
  lemma {:induction false} TallyCounts(ls: seq<string>)
    ensures CountsOf(Tally(ls), ls)
    ensures InFirstAppearanceOrder(Tally(ls), ls)
    decreases |ls|
  {
    if ls != [] {
      var pre, x := ls[..|ls| - 1], ls[|ls| - 1];
      assert ls == pre + [x];
      TallyCounts(pre);
      if x in pre {
        TallyStepPresent(Tally(pre), pre, x);
      } else {
        TallyStepNew(Tally(pre), pre, x);
      }
    }
  }

  lemma {:induction false} InsertPermutes(x: Entry, ys: seq<Entry>)
    ensures multiset(Insert(x, ys)) == multiset(ys) + multiset{x}
    decreases |ys|
  {
    if ys != [] {
      assert ys == [ys[0]] + ys[1..];
      if ys[0].count > x.count {
        InsertPermutes(x, ys[1..]);
      }
    }
  }

  /** Stable insertion keeps the most_common() order. */
  lemma {:induction false} InsertOrdered(x: Entry, ys: seq<Entry>, ls: seq<string>)
    requires OrderedBy(ys, ls)
    requires forall y :: y in ys ==> FirstIndex(ls, x.classLabel) < FirstIndex(ls, y.classLabel)
    ensures OrderedBy(Insert(x, ys), ls)
    decreases |ys|
  {
    if ys == [] {
    } else if ys[0].count <= x.count {
      forall y | y in ys
        ensures Precedes(x, y, ls)
      {
        var k :| 0 <= k < |ys| && ys[k] == y;
        if k > 0 {
          assert Precedes(ys[0], ys[k], ls);
        }
      }
      PrependOrdered(x, ys, ls);
    } else {
      var rest := ys[1..];
      assert OrderedBy(rest, ls) by {
        forall i, j | 0 <= i < j < |rest|
          ensures Precedes(rest[i], rest[j], ls)
        {
          assert rest[i] == ys[i + 1] && rest[j] == ys[j + 1];
        }
      }
      InsertOrdered(x, rest, ls);
      InsertPermutes(x, rest);
      forall y | y in Insert(x, rest)
        ensures Precedes(ys[0], y, ls)
      {
        assert y in multiset(Insert(x, rest));
        if y != x {
          assert y in multiset(rest);
          var k :| 0 <= k < |rest| && rest[k] == y;
          assert ys[k + 1] == y;
        }
      }
      PrependOrdered(ys[0], Insert(x, rest), ls);
    }
  }

  lemma PrependOrdered(x: Entry, ys: seq<Entry>, ls: seq<string>)
    requires OrderedBy(ys, ls)
    requires forall y :: y in ys ==> Precedes(x, y, ls)
    ensures OrderedBy([x] + ys, ls)
  {
    var r := [x] + ys;
    forall i, j | 0 <= i < j < |r|
      ensures Precedes(r[i], r[j], ls)
    {
      assert r[j] == ys[j - 1];
      if i > 0 {
        assert r[i] == ys[i - 1];
      }
    }
  }

  /** most_common() of a counter is a permutation of its entries. */
  lemma {:induction false} MostCommonPermutes(t: seq<Entry>)
    ensures multiset(MostCommon(t)) == multiset(t)
    decreases |t|
  {
    if t != [] {
      var ys := MostCommon(t[1..]);
      MostCommonPermutes(t[1..]);
      InsertPermutes(t[0], ys);
      calc {
        multiset(MostCommon(t));
        multiset(Insert(t[0], ys));
        multiset(t[1..]) + multiset{t[0]};
        { assert t == [t[0]] + t[1..]; }
        multiset(t);
      }
    }
  }

  lemma HeadBeforeTail(t: seq<Entry>, ls: seq<string>)
    requires t != [] && InFirstAppearanceOrder(t, ls)
    ensures InFirstAppearanceOrder(t[1..], ls)
    ensures forall y :: y in t[1..] ==> FirstIndex(ls, t[0].classLabel) < FirstIndex(ls, y.classLabel)
  {
    var tail := t[1..];
    forall i, j | 0 <= i < j < |tail|
      ensures FirstIndex(ls, tail[i].classLabel) < FirstIndex(ls, tail[j].classLabel)
    {
      assert tail[i] == t[i + 1] && tail[j] == t[j + 1];
    }
    forall y | y in tail
      ensures FirstIndex(ls, t[0].classLabel) < FirstIndex(ls, y.classLabel)
    {
      var m :| 0 <= m < |tail| && tail[m] == y;
      assert t[m + 1] == y;
    }
  }

  /** most_common() of a counter lists its entries in most_common() order. */
  lemma {:induction false} MostCommonOrdered(t: seq<Entry>, ls: seq<string>)
    requires InFirstAppearanceOrder(t, ls)
    ensures OrderedBy(MostCommon(t), ls)
    decreases |t|
  {
    if t != [] {
      HeadBeforeTail(t, ls);
      MostCommonOrdered(t[1..], ls);
      MostCommonPermutes(t[1..]);
      var ys := MostCommon(t[1..]);
      forall y | y in ys
        ensures y in t[1..]
      {
        assert y in multiset(ys);
      }
      InsertOrdered(t[0], ys, ls);
    }
  }

  /** The entries of the summary: one per label of a captioned record, with the number of such records. */
  lemma SummaryEntries(records: seq<Record>)
    requires Summary(records).Success?
    ensures var out := Summary(records).value;
            forall e :: e in out <==> CaptionedWithLabel(records, e.classLabel) > 0 && e.count == CaptionedWithLabel(records, e.classLabel)
  {
    var ls := CaptionedLabels(records).value;
    var t := Tally(ls);
    var out := Summary(records).value;
    TallyCounts(ls);
    MostCommonPermutes(t);
    forall e
      ensures e in out <==> CaptionedWithLabel(records, e.classLabel) > 0 && e.count == CaptionedWithLabel(records, e.classLabel)
    {
      CaptionedLabelsCount(records, e.classLabel);
      assert e in out <==> e in multiset(out);
      assert e in t <==> e in multiset(t);
      if e in t {
        var i :| 0 <= i < |t| && t[i] == e;
      }
      if CaptionedWithLabel(records, e.classLabel) > 0 && e.count == CaptionedWithLabel(records, e.classLabel) {
        assert e.classLabel in multiset(ls);
        var i := EntryIndex(t, e.classLabel);
        assert t[i] == e;
      }
    }
  }

  /**
   * The summary raises KeyError exactly when a captioned record has no
   * label. Otherwise it lists each label of a captioned record once, with
   * the number of captioned records that carry it, by descending count, ties
   * in order of first appearance among the captioned records.
   */
  lemma SummaryCharacterised(records: seq<Record>)
    ensures Summary(records).Failure? <==>
              exists k :: 0 <= k < |records| && Truthy(records[k].caption) && records[k].classLabel.None?
    ensures Summary(records).Failure? ==> Summary(records).error == KeyError
    ensures Summary(records).Success? ==>
              var out, ls := Summary(records).value, CaptionedLabels(records).value;
              && (forall e :: e in out <==> CaptionedWithLabel(records, e.classLabel) > 0 && e.count == CaptionedWithLabel(records, e.classLabel))
              && OrderedBy(out, ls)
              && (forall i, j :: 0 <= i < j < |out| ==> out[i].classLabel != out[j].classLabel)
  {
    if Summary(records).Success? {
      var ls := CaptionedLabels(records).value;
      var out := Summary(records).value;
      TallyCounts(ls);
      MostCommonOrdered(Tally(ls), ls);
      SummaryEntries(records);
      forall i, j | 0 <= i < j < |out|
        ensures out[i].classLabel != out[j].classLabel
      {
        assert out[i] in out && out[j] in out;
        assert Precedes(out[i], out[j], ls);
      }
    }
  }

  /** The worked example: two captioned chairs and an uncaptioned table give "chair: 2" alone. */
  lemma SummaryExample()
    ensures Summary([
              Record("1", None, Some("x"), Some("chair")),
              Record("2", None, Some("y"), Some("chair")),
              Record("3", None, None, Some("table"))]) == Success([Entry("chair", 2)])
  {
    var records := [
      Record("1", None, Some("x"), Some("chair")),
      Record("2", None, Some("y"), Some("chair")),
      Record("3", None, None, Some("table"))];
    assert records[1..] == [records[1], records[2]];
    assert records[2..] == [records[2]];
    assert records[1..][1..] == records[2..];
    assert ["chair"] + [] == ["chair"];
    assert ["chair"] + ["chair"] == ["chair", "chair"];
    assert CaptionedLabels(records[2..]) == Success([]);
    assert CaptionedLabels(records[1..]) == Success(["chair"]);
    assert CaptionedLabels(records) == Success(["chair", "chair"]);
    assert Tally(["chair"]) == [Entry("chair", 1)];
    assert ["chair", "chair"][..1] == ["chair"];
  }
}
