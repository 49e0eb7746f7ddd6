/** Bundle::dump: the image the kernel gets, and the offsets the host keeps to read the results. */
module RoundTrip {
  import opened Integers
  import opened Bytes
  import opened Linker
  import opened BundleRows
  import opened FileLists
  import opened BundleDump
  import opened BundleWalk

  /** Everything the writer left behind when it is done. */
  ghost predicate Done(s: Image, t: Image, b: Bundle, outcomes: seq<Key>, labels: seq<FileLabels>) {
    && b.tests != [] && Fits(s, t)
    && exists root, own, next :: Complete(s, b, root, own, outcomes, labels, next) && (root.None? <==> b.files == [])
  }

  lemma Sizes(s: Image, t: Image)
    requires Fits(s, t)
    ensures |s.out| <= |t.out| && |t.out| + BASE < U32
  {
  }

  /** The parts of a complete image. */
  lemma Parts(s: Image, t: Image, b: Bundle, root: Option<Key>, own: seq<Option<Key>>, outcomes: seq<Key>,
              labels: seq<FileLabels>, next: seq<Option<Key>>)
    requires b.tests != [] && Fits(s, t) && Complete(s, b, root, own, outcomes, labels, next)
    ensures Laid(s, 0, HeadRow(b)) && TestsLaid(s, TESTS, b.tests, root, own, outcomes)
    ensures FilesLaid(s, Files(b), AllFiles(b.tests) + b.files, labels, next) && DataApart(labels, 0, s.counter)
    ensures |s.out| == Files(b) + ROW * |AllFiles(b.tests) + b.files|
    ensures |s.out| <= |t.out| && |t.out| + BASE < U32
  {
    hide Fits, Laid, TestsLaid, FilesLaid, DataApart, ListAt, Chained, Labels, LinksSet, HeadRow, AllFiles;
    Sizes(s, t);
  }

  lemma CommonParts(s: Image, b: Bundle, root: Option<Key>, own: seq<Option<Key>>, outcomes: seq<Key>,
              labels: seq<FileLabels>, next: seq<Option<Key>>)
    requires b.tests != [] && Complete(s, b, root, own, outcomes, labels, next) && b.files != []
    ensures
      var p, n := Files(b), |AllFiles(b.tests)|;
      root.Some? && Labels(s, root.value, p + ROW * n) && Chained(s, p, n, n + |b.files|, next, None)
  {
    hide Laid, TestsLaid, FilesLaid, DataApart, ListAt, Chained, Labels, LinksSet, HeadRow, AllFiles;
  }

  /** The row of test `i`, and its own list. */
  lemma TestParts(s: Image, b: Bundle, root: Option<Key>, own: seq<Option<Key>>, outcomes: seq<Key>,
                  labels: seq<FileLabels>, next: seq<Option<Key>>, i: nat)
    requires b.tests != [] && Complete(s, b, root, own, outcomes, labels, next) && i < |b.tests|
    ensures |own| == |outcomes| == |b.tests|
    ensures TestLaid(s, TESTS + ROW * i, b.tests[i], FsLink(own[i], root), outcomes[i])
    ensures own[i].Some? <==> b.tests[i].fs != []
    ensures own[i].Some? ==> Labels(s, own[i].value, Files(b) + ROW * Before(b.tests, i))
    ensures own[i].Some? ==> Chained(s, Files(b), Before(b.tests, i), Before(b.tests, i) + |b.tests[i].fs|, next, root)
  {
    hide Laid, TestLaid, FilesLaid, DataApart, Chained, Labels, LinksSet, HeadRow, AllFiles, Before;
    assert ListAt(s, Files(b), b.tests, i, own, next, root);
  }

  lemma HeadSeen(s: Image, t: Image, b: Bundle)
    requires b.tests != [] && Fits(s, t) && Laid(s, 0, HeadRow(b)) && Files(b) <= |t.out|
    ensures Word(ImageOf(t), 0) == |t.out| && Word(ImageOf(t), 4) == |b.tests| - 1 && PointsTo(ImageOf(t), 8, b.exe)
  {
    hide Fits, Laid, Word, ImageOf, PointsTo;
    Sizes(s, t);
    ImageSize(t);
    RowFound(s, t, 0, HeadRow(b), 0);
    RowFound(s, t, 0, HeadRow(b), 1);
  }

  lemma ListEnd(m: seq<byte>)
    ensures ListFrom(m, 0, [])
  {
  }

  lemma LeadsNowhere(s: Image)
    ensures Leads(s, None, 0)
  {
  }

  lemma LabelLeads(s: Image, t: Image, k: Key, p: nat)
    requires Fits(s, t) && Labels(s, k, p) && p <= |s.out|
    ensures Leads(s, Some(k), p + BASE)
  {
  }

  /** The common list, from its label. */
  lemma CommonSeen(s: Image, t: Image, b: Bundle, root: Option<Key>, own: seq<Option<Key>>, outcomes: seq<Key>,
                   labels: seq<FileLabels>, next: seq<Option<Key>>) returns (w: nat)
    requires b.tests != [] && Fits(s, t) && Complete(s, b, root, own, outcomes, labels, next)
    requires (root.None? <==> b.files == [])
    ensures Leads(s, root, w) && ListFrom(ImageOf(t), w, b.files)
  {
    hide Complete, Fits, Laid, TestsLaid, FilesLaid, DataApart, ListAt, Chained, Word, ImageOf, FileAt, AllFiles,
      ListFrom, Leads, Labels;
    var p, n := Files(b), |AllFiles(b.tests)|;
    var all := AllFiles(b.tests) + b.files;
    ListEnd(ImageOf(t));
    LeadsNowhere(s);
    if b.files == [] {
      w := 0;
    } else {
      Parts(s, t, b, root, own, outcomes, labels, next);
      CommonParts(s, b, root, own, outcomes, labels, next);
      ListFound(s, t, p, all, labels, next, n, n, n + |b.files|, None, 0, []);
      assert all[n..n + |b.files|] + [] == b.files;
      w := p + ROW * n + BASE;
      LabelLeads(s, t, root.value, p + ROW * n);
    }
  }

  /** The own files of test `i` are a slice of all files. */
  lemma {:induction false} OwnSlice(tests: seq<Test>, i: nat)
    requires i < |tests|
    ensures Before(tests, i) + |tests[i].fs| <= |AllFiles(tests)|
    ensures AllFiles(tests)[Before(tests, i)..Before(tests, i) + |tests[i].fs|] == tests[i].fs
    decreases |tests|
  {
    var n := |tests| - 1;
    AllFilesNext(tests, n);
    assert tests[..n + 1] == tests;
    if i < n {
      assert tests[..n][..i] == tests[..i];
      OwnSlice(tests[..n], i);
    }
  }

  lemma ListHead(s: Image, t: Image, b: Bundle, root: Option<Key>, own: seq<Option<Key>>, outcomes: seq<Key>,
                 labels: seq<FileLabels>, next: seq<Option<Key>>, lo: nat, fs: seq<File>, w: nat)
    requires b.tests != [] && Fits(s, t) && Complete(s, b, root, own, outcomes, labels, next)
    requires Leads(s, root, w) && ListFrom(ImageOf(t), w, b.files)
    requires fs != [] && lo + |fs| <= |AllFiles(b.tests)| && AllFiles(b.tests)[lo..lo + |fs|] == fs
    requires Chained(s, Files(b), lo, lo + |fs|, next, root)
    ensures ListFrom(ImageOf(t), Files(b) + ROW * lo + BASE, fs + b.files)
  {
    hide Complete, Fits, Laid, TestsLaid, FilesLaid, DataApart, ListAt, Chained, Word, ImageOf, FileAt, AllFiles,
      ListFrom, Leads, Labels;
    Parts(s, t, b, root, own, outcomes, labels, next);
    var all := AllFiles(b.tests) + b.files;
    assert all[lo..lo + |fs|] == fs;
    ListFound(s, t, Files(b), all, labels, next, lo, lo, lo + |fs|, root, w, b.files);
  }

  /** The list of test `i`: its own files, then the common ones. */
  lemma TestSeen(s: Image, t: Image, b: Bundle, root: Option<Key>, own: seq<Option<Key>>, outcomes: seq<Key>,
                 labels: seq<FileLabels>, next: seq<Option<Key>>, w: nat, i: nat)
    requires b.tests != [] && Fits(s, t) && Complete(s, b, root, own, outcomes, labels, next)
    requires Leads(s, root, w) && ListFrom(ImageOf(t), w, b.files) && i < |b.tests|
    ensures TestAt(ImageOf(t), 12 + ROW * i, b.tests[i], b.files)
  {
    hide Complete, Fits, Laid, TestLaid, TestsLaid, FilesLaid, DataApart, Chained, Word, ImageOf, FileAt, AllFiles,
      ListFrom, Before, Leads, Labels;
    var p, q := Files(b), TESTS + ROW * i;
    var u := b.tests[i];
    Parts(s, t, b, root, own, outcomes, labels, next);
    TestParts(s, b, root, own, outcomes, labels, next, i);
    if u.fs == [] {
      assert u.fs + b.files == b.files;
      TestFound(s, t, q, u, root, outcomes[i], w, b.files);
    } else {
      var lo := Before(b.tests, i);
      OwnSlice(b.tests, i);
      ListHead(s, t, b, root, own, outcomes, labels, next, lo, u.fs, w);
      LabelLeads(s, t, own[i].value, p + ROW * lo);
      TestFound(s, t, q, u, own[i], outcomes[i], p + ROW * lo + BASE, b.files);
    }
  }

  /** The round trip. */
  lemma Seen(s: Image, t: Image, b: Bundle, outcomes: seq<Key>, labels: seq<FileLabels>)
    requires Done(s, t, b, outcomes, labels)
    ensures Sees(ImageOf(t), b)
  {
    var root, own, next :| Complete(s, b, root, own, outcomes, labels, next) && (root.None? <==> b.files == []);
    hide Complete, Fits, Laid, TestsLaid, FilesLaid, DataApart, Word, ImageOf, AllFiles, ListFrom, Leads, TestAt,
      PointsTo;
    Parts(s, t, b, root, own, outcomes, labels, next);
    HeadSeen(s, t, b);
    var w := CommonSeen(s, t, b, root, own, outcomes, labels, next);
    forall i | 0 <= i < |b.tests| ensures TestAt(ImageOf(t), 12 + ROW * i, b.tests[i], b.files) {
      TestSeen(s, t, b, root, own, outcomes, labels, next, w, i);
    }
  }
}
