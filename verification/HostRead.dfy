/** Bundle::dump as a whole, and run of rust/src/launch.rs, which reads the results back. */
module HostRead {
  import opened Integers
  import opened Bytes
  import opened Linker
  import opened BundleRows
  import opened FileLists
  import opened BundleDump
  import opened BundleWalk
  import opened RoundTrip
  import opened Placement

  /** The image, and the offsets _dump leaves in outcome_addr, sz_addr and data_addr. The files are
      numbered as they are written: those of the tests, then the common ones. */
  datatype Dumped = Dumped(image: seq<byte>, outcomeAt: seq<nat>, sizeAt: seq<nat>, dataAt: seq<Option<nat>>)

  /** The image fits behind its address. */
  predicate Fitting(r: Dumped) {
    |r.image| + LINEAR < U32
  }

  predicate FileOffsets(b: Bundle, r: Dumped, j: nat)
    requires j < |Everything(b)| == |r.sizeAt| == |r.dataAt|
  {
    && RowOf(b, j) + ROW <= |r.image|
    && r.sizeAt[j] == RowOf(b, j) + 16
    && (r.dataAt[j].Some? <==> Everything(b)[j].data.Some?)
    && (r.dataAt[j].Some? ==> r.dataAt[j].value + LINEAR == Word(r.image, RowOf(b, j) + 12))
  }

  /** The offsets are those of the words the kernel changes. */
  ghost predicate OffsetsRight(b: Bundle, r: Dumped) {
    && |r.outcomeAt| == |b.tests| && |r.sizeAt| == |r.dataAt| == |Everything(b)|
    && Files(b) + 4 <= |r.image|
    && (forall i :: 0 <= i < |b.tests| ==> r.outcomeAt[i] == 12 + ROW * i + 24)
    && (forall j :: 0 <= j < |Everything(b)| ==> FileOffsets(b, r, j))
  }

  /** A label's value, which must be an address. */
  method OffsetOf(d: Builder, k: Key) returns (at: nat)
    requires k in d.labels && d.labels[k].Addr? && d.labels[k].at >= LINEAR
    ensures at + LINEAR == d.labels[k].at
  {
    at := d.labels[k].at - LINEAR;
  }

  lemma LabelStays(s: Image, t: Image, k: Key, p: nat)
    requires Fits(s, t) && Labels(s, k, p)
    ensures Labels(t, k, p)
  {
    hide Ok, FilledIn;
    LabelsAt(s, t, k);
  }

  /** What the labels of a row are worth in the end. */
  ghost predicate RowEnd(t: Image, p: nat, f: File, a: FileLabels) {
    && p + ROW <= |t.out| && Labels(t, a.sz, p + 16)
    && (a.data.Some? <==> f.data.Some?)
    && (a.data.Some? ==>
          && a.data.value in t.labels && t.labels[a.data.value] == Addr(Word(ImageOf(t), p + 16))
          && Word(ImageOf(t), p + 16) >= LINEAR)
  }

  lemma RowEnds(s: Image, t: Image, p: nat, f: File, a: FileLabels, next: Option<Key>)
    requires Fits(s, t) && FileLaid(s, p, f, a, next)
    ensures RowEnd(t, p, f, a)
  {
    hide Fits, Laid, ImageOf, Word, Labels, PointsTo;
    FileFound(s, t, p, f, a, next);
    LabelStays(s, t, a.sz, p + 16);
  }

  lemma FileLabelsEnd(s: Image, t: Image, b: Bundle, outcomes: seq<Key>, labels: seq<FileLabels>, j: nat)
    requires RoundTrip.Done(s, t, b, outcomes, labels) && j < |Everything(b)|
    ensures |labels| == |Everything(b)| && RowEnd(t, Files(b) + ROW * j, Everything(b)[j], labels[j])
  {
    var root, own, next :| Complete(s, b, root, own, outcomes, labels, next) && (root.None? <==> b.files == []);
    hide Complete, Fits, FilesLaid, FileLaid, TestsLaid, Laid, DataApart, AllFiles, RowEnd;
    Parts(s, t, b, root, own, outcomes, labels, next);
    FileParts(s, t, b, labels, next, j);
    RowEnds(s, t, Files(b) + ROW * j, Everything(b)[j], labels[j], next[j]);
  }

  lemma OutcomeEnd(s: Image, t: Image, b: Bundle, outcomes: seq<Key>, labels: seq<FileLabels>, i: nat)
    requires RoundTrip.Done(s, t, b, outcomes, labels) && i < |b.tests|
    ensures |outcomes| == |b.tests| && Labels(t, outcomes[i], TESTS + ROW * i + 24)
  {
    var root, own, next :| Complete(s, b, root, own, outcomes, labels, next) && (root.None? <==> b.files == []);
    hide Complete, Fits, FilesLaid, TestsLaid, Laid, DataApart, AllFiles, Labels;
    TestParts(s, b, root, own, outcomes, labels, next, i);
    LabelStays(s, t, outcomes[i], TESTS + ROW * i + 24);
  }

  lemma ImageIs(t: Image)
    ensures ImageOf(t) == Le(|t.out|, 4) + t.out
  {
  }

  lemma Lengths(s: Image, t: Image, b: Bundle, outcomes: seq<Key>, labels: seq<FileLabels>)
    requires RoundTrip.Done(s, t, b, outcomes, labels)
    ensures |outcomes| == |b.tests| && |labels| == |Everything(b)| && Files(b) + 4 <= |ImageOf(t)|
  {
    var root, own, next :| Complete(s, b, root, own, outcomes, labels, next) && (root.None? <==> b.files == []);
    hide Complete, Fits, FileLaid, TestLaid, Laid, ImageOf, DataApart, AllFiles;
    Parts(s, t, b, root, own, outcomes, labels, next);
  }

  /** The lookups after resolve. */
  method Offsets(d: Builder, b: Bundle, outcomes: seq<Key>, labels: seq<FileLabels>, ghost s: Image) returns (r: Dumped)
    requires RoundTrip.Done(s, d.S(), b, outcomes, labels)
    ensures r.image == ImageOf(d.S()) && OffsetsRight(b, r)
  {
    hide RoundTrip.Done, ImageOf, Word, AllFiles;
    var outcomeAt: seq<nat>, sizeAt: seq<nat>, dataAt: seq<Option<nat>> := [], [], [];
    ghost var t := d.S();
    Lengths(s, t, b, outcomes, labels);
    for i := 0 to |outcomes|
      invariant |outcomeAt| == i && forall k :: 0 <= k < i ==> outcomeAt[k] == 12 + ROW * k + 24
    {
      OutcomeEnd(s, t, b, outcomes, labels, i);
      var at := OffsetOf(d, outcomes[i]);
      outcomeAt := outcomeAt + [at];
    }
    for j := 0 to |labels|
      invariant |sizeAt| == |dataAt| == j
      invariant forall k :: 0 <= k < j ==>
        && sizeAt[k] == RowOf(b, k) + 16 && (dataAt[k].Some? <==> Everything(b)[k].data.Some?)
        && RowOf(b, k) + ROW <= |ImageOf(t)|
        && (dataAt[k].Some? ==> dataAt[k].value + LINEAR == Word(ImageOf(t), RowOf(b, k) + 12))
    {
      FileLabelsEnd(s, t, b, outcomes, labels, j);
      var at := OffsetOf(d, labels[j].sz);
      sizeAt := sizeAt + [at];
      if labels[j].data.Some? {
        at := OffsetOf(d, labels[j].data.value);
        dataAt := dataAt + [Some(at)];
      } else {
        dataAt := dataAt + [None];
      }
    }
    r := Dumped(Le(|d.out|, 4) + d.out, outcomeAt, sizeAt, dataAt);
    assert r.image == ImageOf(t) by {
      ImageIs(t);
    }
  }

  lemma WritersRefs(s: Image)
    requires Ok(s)
    ensures Within(s.refs, |s.out|)
  {
  }

  lemma SetMeans(s: Image)
    ensures AllSet(s) <==> forall p :: p in s.refs ==> s.refs[p] in s.labels
  {
  }

  lemma CompleteSize(s: Image, b: Bundle, root: Option<Key>, own: seq<Option<Key>>, outcomes: seq<Key>,
                     labels: seq<FileLabels>, next: seq<Option<Key>>)
    requires b.tests != [] && Complete(s, b, root, own, outcomes, labels, next)
    ensures |s.out| == Files(b) + ROW * |Everything(b)|
  {
    hide Laid, TestsLaid, FilesLaid, DataApart, ListAt, Chained, Labels, LinksSet, HeadRow, AllFiles;
  }

  lemma FinishedDone(s: Image, t: Image, b: Bundle, root: Option<Key>, own: seq<Option<Key>>, outcomes: seq<Key>,
                     labels: seq<FileLabels>, next: seq<Option<Key>>)
    requires b.tests != [] && Complete(s, b, root, own, outcomes, labels, next) && (root.None? || b.files != [])
    requires Ok(s) && Linked(s, t) && |t.out| + BASE < U32
    ensures RoundTrip.Done(s, t, b, outcomes, labels)
  {
    hide Laid, TestsLaid, FilesLaid, DataApart, ListAt, Chained, Labels, LinksSet, HeadRow, AllFiles, Ok, Linked;
  }

  /** Bundle::dump: it fails exactly when there is no test, or no common file to end the lists with.
      For any order in which resolve goes through the open words the kernel finds the bundle. */
  method Dump(b: Bundle, python: bool) returns (r: Option<Dumped>)
    requires Files(b) + ROW * |Everything(b)| + BASE <= U32
    ensures r.Some? <==> b.tests != [] && (python || b.files != [])
    ensures r.Some? && Fitting(r.value) ==>
      Sees(r.value.image, b) && Separate(r.value.image, b) && OffsetsRight(b, r.value)
  {
    hide Complete, Single, Ok, Within, Sees, Separate, OffsetsRight, Linked, AllFiles, AllSet;
    r := None;
    if b.tests == [] {
      return;
    }
    var d := new Builder(python);
    var outcomes, labels;
    ghost var root, own, next;
    outcomes, labels, root, own, next := DumpBody(d, b);
    ghost var s := d.S();
    WritersRefs(s);
    SetExactly(s, b, root, own, outcomes, labels, next);
    CompleteSize(s, b, root, own, outcomes, labels, next);
    var ok := d.Resolve();
    SetMeans(s);
    if !ok {
      return;
    }
    if |d.out| + BASE < U32 {
      FinishedDone(s, d.S(), b, root, own, outcomes, labels, next);
      Seen(s, d.S(), b, outcomes, labels);
      Separated(s, d.S(), b, outcomes, labels);
      var o := Offsets(d, b, outcomes, labels, s);
      r := Some(o);
    } else {
      r := Some(Dumped(Le(|d.out|, 4) + d.out, [], [], []));
    }
  }
}
