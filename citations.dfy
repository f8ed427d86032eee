/** The citation builder of the synchronous chat iterator: for every
    retrieved document, in rank order, a numbered citation block in
    `source_documents` and a `[content, similarity]` entry appended to the
    per-filename list of `reference_list` (a `defaultdict(list)` frozen to
    an insertion-ordered dict). */
module Citations {
  import opened Wrappers
  import opened Text
  import opened UrlEncoding

  /** A retrieved passage: `page_content`, `metadata["source"]` and the
      backend's distance score (an integer here). */
  datatype Doc = Doc(pageContent: string, source: string, score: int)

  /** One `[page_content, str(int(1100 - score))]` pair of a reference list. */
  datatype RefEntry = RefEntry(content: string, similarity: string)

  /** The frozen `reference_list`: a dict keeps its keys in insertion order,
      so the keys are a sequence next to the map. */
  datatype Reference = Reference(keys: seq<string>, groups: map<string, seq<RefEntry>>)

  /** The constant the similarity display subtracts the score from. */
  const ScoreBase: int := 1100

  const CitationHead: string := "出处 ["
  const SimilarityLabel: string := "\n\n 相似度："
  const DownloadPath: string := "knowledge_base/download_doc?"
  const FileScheme: string := "file://"

  function Filename(d: Doc): string
  {
    LastSegment(d.source)
  }

  function Filenames(docs: seq<Doc>): (names: seq<string>)
    ensures |names| == |docs|
    ensures forall i :: 0 <= i < |docs| ==> names[i] == Filename(docs[i])
  {
    seq(|docs|, i requires 0 <= i < |docs| => Filename(docs[i]))
  }

  function Similarity(d: Doc): int
  {
    ScoreBase - d.score
  }

  function Entry(d: Doc): RefEntry
  {
    RefEntry(d.pageContent, IntToString(Similarity(d)))
  }

  /** The link of a citation: the local path, or the download endpoint
      under the request's base URL with the knowledge base and file name. */
  function Link(d: Doc, kbName: string, baseUrl: string, localDocUrl: bool): string
  {
    if localDocUrl then FileScheme + d.source
    else baseUrl + DownloadPath + UrlEncode(kbName, Filename(d))
  }

  /** The label that opens citation number `number`. */
  function Label(number: nat): string
  {
    CitationHead + NatToString(number) + "]"
  }

  /** What follows the label in a citation block: file name, link, content
      and similarity display. */
  function CitationBody(d: Doc, kbName: string, baseUrl: string, localDocUrl: bool): string
  {
    " [" + Filename(d) + "](" + Link(d, kbName, baseUrl, localDocUrl) + ") \n\n"
      + d.pageContent + SimilarityLabel + IntToString(Similarity(d)) + "\n\n"
  }

  /** The citation block of the document at 0-based rank `inum`. */
  function CitationBlock(inum: nat, d: Doc, kbName: string, baseUrl: string, localDocUrl: bool): string
  {
    Label(inum + 1) + CitationBody(d, kbName, baseUrl, localDocUrl)
  }

  /** `[f(0, xs[0]), f(1, xs[1]), ...]`, built from the front as a loop
      with `enumerate` builds it. */
  function MapIndexed<T, U>(xs: seq<T>, f: (nat, T) -> U): (ys: seq<U>)
    ensures |ys| == |xs|
  {
    if |xs| == 0 then [] else MapIndexed(xs[..|xs| - 1], f) + [f(|xs| - 1, xs[|xs| - 1])]
  }

  lemma {:induction false} MapIndexedAt<T, U>(xs: seq<T>, f: (nat, T) -> U, i: nat)
    requires i < |xs|
    ensures MapIndexed(xs, f)[i] == f(i, xs[i])
  {
    var n := |xs| - 1;
    if i < n {
      assert xs[..n][i] == xs[i];
      MapIndexedAt(xs[..n], f, i);
    }
  }

  /** `source_documents` after the loop over `docs`. */
  function CitationBlocks(docs: seq<Doc>, kbName: string, baseUrl: string, localDocUrl: bool): (blocks: seq<string>)
    ensures |blocks| == |docs|
  {
    MapIndexed(docs, (inum: nat, d: Doc) => CitationBlock(inum, d, kbName, baseUrl, localDocUrl))
  }

  /** The citation number written in a block's label, if it has one. */
  function CitationNumber(block: string): Option<nat>
  {
    if |block| < |CitationHead| || block[..|CitationHead|] != CitationHead then None
    else
      var digits := LeadingDigits(block[|CitationHead|..]);
      if |digits| == 0 then None else Some(DigitsValue(digits))
  }

  // ---------------------------------------------------------------------------
  // Grouping by filename

  /** `reference_list[filename].append(entry)` on the frozen view. */
  function AddEntry(r: Reference, filename: string, e: RefEntry): Reference
  {
    if filename in r.groups then Reference(r.keys, r.groups[filename := r.groups[filename] + [e]])
    else Reference(r.keys + [filename], r.groups[filename := [e]])
  }

  /** `dict(reference_list)` after the loop over `docs`. */
  function GroupByFilename(docs: seq<Doc>): Reference
  {
    if |docs| == 0 then Reference([], map[])
    else
      var last := docs[|docs| - 1];
      AddEntry(GroupByFilename(docs[..|docs| - 1]), Filename(last), Entry(last))
  }

  /** The entries of the documents named `name`, in retrieval order. */
  function EntriesFor(docs: seq<Doc>, name: string): seq<RefEntry>
  {
    if |docs| == 0 then []
    else
      var last := docs[|docs| - 1];
      EntriesFor(docs[..|docs| - 1], name) + (if Filename(last) == name then [Entry(last)] else [])
  }

  /** The distinct elements of `xs`, in order of first occurrence. */
  function Distinct(xs: seq<string>): seq<string>
  {
    if |xs| == 0 then []
    else
      var d := Distinct(xs[..|xs| - 1]);
      if xs[|xs| - 1] in d then d else d + [xs[|xs| - 1]]
  }

  predicate NoDuplicates(xs: seq<string>)
  {
    forall i, j :: 0 <= i < j < |xs| ==> xs[i] != xs[j]
  }

  /** What a dict of lists built by appends always satisfies: every key
      listed once, the listed keys are the map's keys, no list is empty. */
  predicate WellFormed(r: Reference)
  {
    && NoDuplicates(r.keys)
    && (forall k :: k in r.keys ==> k in r.groups)
    && (forall k :: k in r.groups ==> k in r.keys)
    && (forall k :: k in r.groups ==> |r.groups[k]| > 0)
  }

  /** The number of entries over all groups. */
  function GroupSizes(keys: seq<string>, groups: map<string, seq<RefEntry>>): nat
  {
    if |keys| == 0 then 0
    else
      var k := keys[|keys| - 1];
      GroupSizes(keys[..|keys| - 1], groups) + (if k in groups then |groups[k]| else 0)
  }

  function EntryCount(r: Reference): nat
  {
    GroupSizes(r.keys, r.groups)
  }

  // ---------------------------------------------------------------------------
  // The defaultdict and the loop

  /** `reference_list = defaultdict(list)`, updated in place. */
  class ReferenceList {
    var keys: seq<string>
    var groups: map<string, seq<RefEntry>>

    constructor ()
      ensures Snapshot() == Reference([], map[])
    {
      keys := [];
      groups := map[];
    }

    /** `dict(reference_list)`. */
    function Snapshot(): Reference
      reads this
    {
      Reference(keys, groups)
    }

    /** `reference_list[filename].append(entry)`: a missing key first gets
        an empty list, at the end of the key order. */
    method Append(filename: string, entry: RefEntry)
      modifies this
      ensures Snapshot() == AddEntry(old(Snapshot()), filename, entry)
      ensures WellFormed(old(Snapshot())) ==> WellFormed(Snapshot())
    {
      ghost var before := Snapshot();
      var group := if filename in groups then groups[filename] else [];
      if filename !in groups {
        keys := keys + [filename];
      }
      groups := groups[filename := group + [entry]];
      assert filename !in before.groups ==> group + [entry] == [entry];
      if WellFormed(before) {
        AddEntryWellFormed(before, filename, entry);
      }
    }
  }

  /** The citation loop: numbered blocks for `source_documents` and the
      frozen per-filename reference lists. */
  method BuildCitations(docs: seq<Doc>, kbName: string, baseUrl: string, localDocUrl: bool)
    returns (sourceDocuments: seq<string>, reference: Reference)
    ensures sourceDocuments == CitationBlocks(docs, kbName, baseUrl, localDocUrl)
    ensures reference == GroupByFilename(docs)
  {
    sourceDocuments := [];
    var referenceList := new ReferenceList();
    var inum := 0;
    while inum < |docs|
      invariant 0 <= inum <= |docs|
      invariant sourceDocuments == CitationBlocks(docs[..inum], kbName, baseUrl, localDocUrl)
      invariant referenceList.Snapshot() == GroupByFilename(docs[..inum])
    {
      var doc := docs[inum];
      var filename := LastSegment(doc.source);
      var url;
      if localDocUrl {
        url := FileScheme + doc.source;
      } else {
        url := baseUrl + DownloadPath + UrlEncode(kbName, filename);
      }
      var similarity := ScoreBase - doc.score;
      var text := Label(inum + 1) + (" [" + filename + "](" + url + ") \n\n"
        + doc.pageContent + SimilarityLabel + IntToString(similarity) + "\n\n");
      assert text == CitationBlock(inum, doc, kbName, baseUrl, localDocUrl);
      referenceList.Append(filename, RefEntry(doc.pageContent, IntToString(similarity)));
      sourceDocuments := sourceDocuments + [text];
      assert docs[..inum + 1][..inum] == docs[..inum];
      inum := inum + 1;
    }
    assert docs[..inum] == docs;
    reference := referenceList.Snapshot();
  }

  // ---------------------------------------------------------------------------
  // Properties of the citations

  /** `source_documents` has one block per retrieved document, and block
      `i` is the block of document `i`. */
  lemma {:induction false} CitationBlocksAt(docs: seq<Doc>, kbName: string, baseUrl: string, localDocUrl: bool, i: nat)
    requires i < |docs|
    ensures CitationBlocks(docs, kbName, baseUrl, localDocUrl)[i] == CitationBlock(i, docs[i], kbName, baseUrl, localDocUrl)
  {
    MapIndexedAt(docs, (inum: nat, d: Doc) => CitationBlock(inum, d, kbName, baseUrl, localDocUrl), i);
  }

  /** Block `i` opens with the label `[i+1]`, and the number can be read
      back from it. */
  lemma CitationNumbered(docs: seq<Doc>, kbName: string, baseUrl: string, localDocUrl: bool, i: nat)
    requires i < |docs|
    ensures var block := CitationBlocks(docs, kbName, baseUrl, localDocUrl)[i];
      && Label(i + 1) <= block
      && CitationNumber(block) == Some(i + 1)
  {
    CitationBlocksAt(docs, kbName, baseUrl, localDocUrl, i);
    LabelNumber(i + 1, CitationBody(docs[i], kbName, baseUrl, localDocUrl));
  }

  /** The number of a label is read back from any text it opens. */
  lemma LabelNumber(n: nat, tail: string)
    ensures CitationNumber(Label(n) + tail) == Some(n)
  {
    var digits := NatToString(n);
    var block := Label(n) + tail;
    assert block == CitationHead + (digits + ("]" + tail));
    assert block[|CitationHead|..] == digits + ("]" + tail);
    LeadingDigitsOf(digits, "]" + tail);
    DigitsValueOfNatToString(n);
  }

  /** With `local_doc_url` the link is the local path; otherwise it is the
      download endpoint under the base URL, and its query reads back as the
      escaped knowledge-base name and file name. */
  lemma LinkShape(d: Doc, kbName: string, baseUrl: string, localDocUrl: bool)
    ensures var link := Link(d, kbName, baseUrl, localDocUrl);
      if localDocUrl then link == FileScheme + d.source
      else
        && baseUrl + DownloadPath <= link
        && ParseQuery(link[|baseUrl + DownloadPath|..])
           == [(KbNameKey, QuotePlus(kbName)), (FileNameKey, QuotePlus(Filename(d)))]
  {
    if !localDocUrl {
      var link := Link(d, kbName, baseUrl, localDocUrl);
      assert link[|baseUrl + DownloadPath|..] == UrlEncode(kbName, Filename(d));
      ParseUrlEncode(kbName, Filename(d));
    }
  }

  // ---------------------------------------------------------------------------
  // Properties of the grouping

  lemma AddEntryWellFormed(r: Reference, filename: string, e: RefEntry)
    requires WellFormed(r)
    ensures WellFormed(AddEntry(r, filename, e))
  {
  }

  /** The grouping is a dict of non-empty lists with every key listed once. */
  lemma {:induction false} GroupByFilenameWellFormed(docs: seq<Doc>)
    ensures WellFormed(GroupByFilename(docs))
  {
    if |docs| > 0 {
      var last := docs[|docs| - 1];
      GroupByFilenameWellFormed(docs[..|docs| - 1]);
      AddEntryWellFormed(GroupByFilename(docs[..|docs| - 1]), Filename(last), Entry(last));
    }
  }

  /** The keys, in order, are the distinct filenames in order of first
      retrieval. */
  lemma {:induction false} GroupKeysInFirstSeenOrder(docs: seq<Doc>)
    ensures GroupByFilename(docs).keys == Distinct(Filenames(docs))
  {
    if |docs| > 0 {
      var n := |docs| - 1;
      GroupKeysInFirstSeenOrder(docs[..n]);
      GroupByFilenameWellFormed(docs[..n]);
      assert Filenames(docs)[..n] == Filenames(docs[..n]);
    }
  }

  /** The first-seen order lists each element of `xs` once and nothing
      else, and leaves a sequence without repeats as it is. */
  lemma {:induction false} DistinctProps(xs: seq<string>)
    ensures NoDuplicates(Distinct(xs))
    ensures forall x :: x in Distinct(xs) <==> x in xs
    ensures |Distinct(xs)| <= |xs|
    ensures NoDuplicates(xs) ==> Distinct(xs) == xs
  {
    if |xs| > 0 {
      var n := |xs| - 1;
      DistinctProps(xs[..n]);
      assert xs == xs[..n] + [xs[n]];
      if NoDuplicates(xs) {
        assert NoDuplicates(xs[..n]);
        assert xs[n] !in xs[..n];
      }
    }
  }

  /** Each filename's list holds exactly the entries of the documents with
      that filename, in retrieval order; a name no document has is absent. */
  lemma {:induction false} GroupContents(docs: seq<Doc>, name: string)
    ensures name in GroupByFilename(docs).groups ==> GroupByFilename(docs).groups[name] == EntriesFor(docs, name)
    ensures name !in GroupByFilename(docs).groups ==> EntriesFor(docs, name) == []
  {
    if |docs| > 0 {
      GroupContents(docs[..|docs| - 1], name);
    }
  }

  /** The keys are exactly the filenames of the retrieved documents. */
  lemma {:induction false} GroupKeysAreFilenames(docs: seq<Doc>, name: string)
    ensures name in GroupByFilename(docs).groups <==> name in Filenames(docs)
  {
    if |docs| > 0 {
      var n := |docs| - 1;
      GroupKeysAreFilenames(docs[..n], name);
      assert Filenames(docs) == Filenames(docs[..n]) + [Filename(docs[n])];
    }
  }

  lemma {:induction false} GroupSizesAppendKey(keys: seq<string>, groups: map<string, seq<RefEntry>>, k: string, g: seq<RefEntry>)
    requires k !in keys
    ensures GroupSizes(keys, groups[k := g]) == GroupSizes(keys, groups)
  {
    if |keys| > 0 {
      GroupSizesAppendKey(keys[..|keys| - 1], groups, k, g);
    }
  }

  lemma {:induction false} GroupSizesGrowOne(keys: seq<string>, groups: map<string, seq<RefEntry>>, k: string, e: RefEntry)
    requires NoDuplicates(keys) && k in keys && k in groups
    ensures GroupSizes(keys, groups[k := groups[k] + [e]]) == GroupSizes(keys, groups) + 1
  {
    var n := |keys| - 1;
    if keys[n] == k {
      assert k !in keys[..n];
      GroupSizesAppendKey(keys[..n], groups, k, groups[k] + [e]);
    } else {
      assert k in keys[..n];
      GroupSizesGrowOne(keys[..n], groups, k, e);
    }
  }

  /** Every retrieved document lands in exactly one group: the group sizes
      add up to the number of documents. */
  lemma {:induction false} EntryCountIsDocCount(docs: seq<Doc>)
    ensures EntryCount(GroupByFilename(docs)) == |docs|
  {
    if |docs| > 0 {
      var n := |docs| - 1;
      var r := GroupByFilename(docs[..n]);
      var name := Filename(docs[n]);
      EntryCountIsDocCount(docs[..n]);
      GroupByFilenameWellFormed(docs[..n]);
      if name in r.groups {
        GroupSizesGrowOne(r.keys, r.groups, name, Entry(docs[n]));
      } else {
        GroupSizesAppendKey(r.keys, r.groups, name, [Entry(docs[n])]);
      }
    }
  }
}
