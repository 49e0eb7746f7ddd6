/** Where the strings and the data of a bundle lie: apart from each other and from the structures. */
module Placement {
  import opened Bytes
  import opened Linker
  import opened BundleRows
  import opened FileLists
  import opened BundleDump
  import opened BundleWalk
  import opened RoundTrip

  /** All files, and the place of struct file `j` in the image. */
  function Everything(b: Bundle): seq<File> {
    AllFiles(b.tests) + b.files
  }

  function RowOf(b: Bundle, j: nat): nat {
    Files(b) + 4 + ROW * j
  }

  /** What pointers `p` (to `n` bytes) and `q` (to `k` bytes) go to does not overlap. */
  predicate Clear(m: seq<byte>, p: nat, n: nat, q: nat, k: nat)
    requires p + 4 <= |m| && q + 4 <= |m|
  {
    Word(m, p) + n <= Word(m, q) || Word(m, q) + k <= Word(m, p)
  }

  ghost predicate Inodes(m: seq<byte>, b: Bundle) {
    && RowOf(b, |Everything(b)|) <= |m|
    && (forall j :: 0 <= j < |Everything(b)| ==> Word(m, RowOf(b, j) + 4) >= FIRST_INODE)
    && (forall i, j :: 0 <= i < j < |Everything(b)| ==> Word(m, RowOf(b, i) + 4) != Word(m, RowOf(b, j) + 4))
  }

  /** The data of file `i` is behind all structures, clear of every other file's data and of all
      strings: writing there changes no structure, no name and no other file. */
  ghost predicate DataClear(m: seq<byte>, b: Bundle, i: nat)
    requires i < |Everything(b)|
  {
    var n, p := Capacity(Everything(b)[i]), RowOf(b, i) + 12;
    && RowOf(b, |Everything(b)|) <= |m|
    && LINEAR + RowOf(b, |Everything(b)|) <= Word(m, p)
    && (forall j :: 0 <= j < |Everything(b)| && j != i && Everything(b)[j].data.Some? ==>
          Clear(m, p, n, RowOf(b, j) + 12, Capacity(Everything(b)[j])))
    && (forall j :: 0 <= j < |Everything(b)| ==> Clear(m, p, n, RowOf(b, j), |Everything(b)[j].name| + 1))
    && (forall k :: 0 <= k < |b.tests| ==>
          && Clear(m, p, n, 12 + ROW * k + 12, |b.tests[k].input| + 1)
          && Clear(m, p, n, 12 + ROW * k + 16, |b.tests[k].output| + 1))
    && Clear(m, p, n, 8, |b.exe| + 1)
  }

  ghost predicate Behind(m: seq<byte>, b: Bundle, q: nat) {
    q + 4 <= |m| && LINEAR + RowOf(b, |Everything(b)|) <= Word(m, q)
  }

  /** The strings too are behind all structures. */
  ghost predicate StringsBehind(m: seq<byte>, b: Bundle) {
    && Behind(m, b, 8)
    && (forall k :: 0 <= k < |b.tests| ==> Behind(m, b, 12 + ROW * k + 12) && Behind(m, b, 12 + ROW * k + 16))
    && (forall j :: 0 <= j < |Everything(b)| ==> Behind(m, b, RowOf(b, j)))
  }

  ghost predicate Separate(m: seq<byte>, b: Bundle) {
    && Inodes(m, b)
    && (forall j :: 0 <= j < |Everything(b)| ==> FileAt(m, RowOf(b, j), Everything(b)[j]))
    && StringsBehind(m, b)
    && forall i :: 0 <= i < |Everything(b)| && Everything(b)[i].data.Some? ==> DataClear(m, b, i)
  }

  function CellBytes(c: Cell): seq<byte>
    requires c.Str? || c.Data?
  {
    if c.Str? then c.text + [0] else c.bytes
  }

  lemma PlacedBehind(s: Image, t: Image, k: Key)
    requires Fits(s, t) && k in s.labels && s.labels[k].Blob? && k in t.labels && t.labels[k].Addr?
    ensures |s.out| + BASE <= t.labels[k].at
  {
    hide Ok, FilledIn, LabelsGoing;
    LabelsAt(s, t, k);
  }

  /** A word with a piece: its pointer is the label's address, behind everything written. */
  lemma PieceOf(s: Image, t: Image, p: nat, c: Cell)
    requires Fits(s, t) && (c.Str? || c.Data?) && Holds(s, p, c)
    ensures p + 4 <= |t.out| && p in s.refs && s.refs[p] in s.labels && s.refs[p] in t.labels
    ensures s.labels[s.refs[p]] == Blob(CellBytes(c), if c.Str? then 1 else 4)
    ensures t.labels[s.refs[p]] == Addr(Word(ImageOf(t), p + 4))
    ensures |s.out| + BASE <= Word(ImageOf(t), p + 4)
  {
    hide Fits, Word, ImageOf;
    CellOpen(s, t, p, c);
    PlacedFound(s, t, s.refs[p]);
    PlacedBehind(s, t, s.refs[p]);
  }

  lemma LabelsDisjoint(s: Image, t: Image, k: Key, l: Key)
    requires LabelsGoing(s, t) && k in s.labels && l in s.labels && k != l && s.labels[k].Blob? && s.labels[l].Blob?
    ensures Disjoint(s, t, k, l)
  {
  }

  lemma PiecesClear(s: Image, t: Image, p: nat, c: Cell, q: nat, d: Cell)
    requires Fits(s, t) && (c.Str? || c.Data?) && Holds(s, p, c) && (d.Str? || d.Data?) && Holds(s, q, d)
    requires p in s.refs && q in s.refs ==> s.refs[p] != s.refs[q]
    ensures p + 4 <= |t.out| && q + 4 <= |t.out|
    ensures Clear(ImageOf(t), p + 4, |CellBytes(c)|, q + 4, |CellBytes(d)|)
  {
    hide Ok, FilledIn, LabelsGoing, Word, ImageOf, Holds;
    PieceOf(s, t, p, c);
    PieceOf(s, t, q, d);
    LabelsDisjoint(s, t, s.refs[p], s.refs[q]);
  }

  /** Data and a string never share a label. */
  lemma DataAndString(s: Image, t: Image, p: nat, k: Key, x: seq<byte>, q: nat, text: seq<byte>)
    requires Fits(s, t) && Holds(s, p, Data(k, x)) && Holds(s, q, Str(text))
    ensures p + 4 <= |t.out| && q + 4 <= |t.out| && Clear(ImageOf(t), p + 4, |x|, q + 4, |text| + 1)
  {
    hide Fits, Clear, ImageOf, Word;
    PiecesClear(s, t, p, Data(k, x), q, Str(text));
  }

  lemma CellIn(s: Image, p: nat, cells: seq<Cell>, i: nat)
    requires Laid(s, p, cells) && i < |cells|
    ensures Holds(s, p + 4 * i, cells[i])
  {
  }

  /** The words with pieces in the row of a file. */
  lemma FileCells(s: Image, p: nat, f: File, a: FileLabels, next: Option<Key>)
    requires FileLaid(s, p, f, a, next)
    ensures Holds(s, p, Str(f.name)) && Holds(s, p + 4, Ino)
    ensures f.data.Some? ==> a.data.Some? && Holds(s, p + 12, Data(a.data.value, f.data.value))
  {
    hide Laid, Holds;
    var row := FileRow(f, a.data, next);
    CellIn(s, p, row, 0);
    CellIn(s, p, row, 1);
    CellIn(s, p, row, 3);
  }

  lemma TestCells(s: Image, p: nat, u: Test, fs: Option<Key>, o: Key)
    requires TestLaid(s, p, u, fs, o)
    ensures Holds(s, p + 12, Str(u.input)) && Holds(s, p + 16, Str(u.output))
  {
    hide Laid, Holds;
    CellIn(s, p, TestRow(u, fs), 3);
    CellIn(s, p, TestRow(u, fs), 4);
  }

  lemma FileParts(s: Image, t: Image, b: Bundle, labels: seq<FileLabels>, next: seq<Option<Key>>, j: nat)
    requires FilesLaid(s, Files(b), Everything(b), labels, next) && j < |Everything(b)| && Fits(s, t)
    requires Files(b) + ROW * |Everything(b)| <= |s.out|
    ensures |labels| == |next| == |Everything(b)|
    ensures FileLaid(s, Files(b) + ROW * j, Everything(b)[j], labels[j], next[j])
  {
    hide Fits;
    RowIn(s, t, Files(b), Everything(b), labels, next, j);
  }

  lemma InodePair(s: Image, t: Image, p: nat, q: nat)
    requires Fits(s, t) && IsInode(s, p) && IsInode(s, q) && p != q && p + 4 <= |t.out| && q + 4 <= |t.out|
    ensures Word(t.out, p) != Word(t.out, q)
  {
    hide Ok, Base;
  }

  lemma InodesApart(s: Image, t: Image, b: Bundle, labels: seq<FileLabels>, next: seq<Option<Key>>)
    requires FilesLaid(s, Files(b), Everything(b), labels, next) && Fits(s, t)
    requires Files(b) + ROW * |Everything(b)| <= |s.out|
    ensures Inodes(ImageOf(t), b)
  {
    hide Fits, FilesLaid, ImageOf, Word, FileLaid, Everything;
    Sizes(s, t);
    forall j | 0 <= j < |Everything(b)|
      ensures Word(ImageOf(t), RowOf(b, j) + 4) >= FIRST_INODE && IsInode(s, Files(b) + ROW * j + 4)
      ensures Word(ImageOf(t), RowOf(b, j) + 4) == Word(t.out, Files(b) + ROW * j + 4)
    {
      FileParts(s, t, b, labels, next, j);
      FileCells(s, Files(b) + ROW * j, Everything(b)[j], labels[j], next[j]);
      CellOpen(s, t, Files(b) + ROW * j + 4, Ino);
    }
    forall i, j | 0 <= i < j < |Everything(b)|
      ensures Word(ImageOf(t), RowOf(b, i) + 4) != Word(ImageOf(t), RowOf(b, j) + 4)
    {
      InodePair(s, t, Files(b) + ROW * i + 4, Files(b) + ROW * j + 4);
    }
  }

  lemma ApartAt(labels: seq<FileLabels>, lo: nat, hi: nat, i: nat, j: nat)
    requires DataApart(labels, lo, hi) && i < |labels| && j < |labels| && i != j && labels[i].data.Some?
    requires labels[j].data.Some?
    ensures labels[i].data.value != labels[j].data.value
  {
  }

  lemma FileClear(s: Image, t: Image, b: Bundle, labels: seq<FileLabels>, next: seq<Option<Key>>, i: nat, j: nat)
    requires FilesLaid(s, Files(b), Everything(b), labels, next) && Fits(s, t) && DataApart(labels, 0, s.counter)
    requires Files(b) + ROW * |Everything(b)| <= |s.out| && i < |Everything(b)| && j < |Everything(b)|
    requires Everything(b)[i].data.Some? && RowOf(b, |Everything(b)|) <= |t.out| + 4
    ensures
      var n, p := Capacity(Everything(b)[i]), RowOf(b, i) + 12;
      && Clear(ImageOf(t), p, n, RowOf(b, j), |Everything(b)[j].name| + 1)
      && (j != i && Everything(b)[j].data.Some? ==>
            Clear(ImageOf(t), p, n, RowOf(b, j) + 12, Capacity(Everything(b)[j])))
  {
    hide Fits, FilesLaid, ImageOf, Word, FileLaid, Everything, DataApart, Clear;
    FileParts(s, t, b, labels, next, i);
    FileParts(s, t, b, labels, next, j);
    var p, q := Files(b) + ROW * i, Files(b) + ROW * j;
    var f, g := Everything(b)[i], Everything(b)[j];
    FileCells(s, p, f, labels[i], next[i]);
    FileCells(s, q, g, labels[j], next[j]);
    DataAndString(s, t, p + 12, labels[i].data.value, f.data.value, q, g.name);
    if j != i && g.data.Some? {
      ApartAt(labels, 0, s.counter, i, j);
      PiecesClear(s, t, p + 12, Data(labels[i].data.value, f.data.value),
                  q + 12, Data(labels[j].data.value, g.data.value));
    }
  }

  lemma DataIsClear(s: Image, t: Image, b: Bundle, root: Option<Key>, own: seq<Option<Key>>, outcomes: seq<Key>,
                    labels: seq<FileLabels>, next: seq<Option<Key>>, i: nat)
    requires b.tests != [] && Fits(s, t) && Complete(s, b, root, own, outcomes, labels, next)
    requires i < |Everything(b)| && Everything(b)[i].data.Some?
    ensures DataClear(ImageOf(t), b, i)
  {
    hide Complete, Fits, FilesLaid, TestsLaid, TestLaid, Laid, ImageOf, Word, FileLaid, DataApart, Clear, Holds,
      AllFiles;
    Parts(s, t, b, root, own, outcomes, labels, next);
    FileParts(s, t, b, labels, next, i);
    var p, k, x := Files(b) + ROW * i + 12, labels[i].data, Everything(b)[i].data.value;
    FileCells(s, Files(b) + ROW * i, Everything(b)[i], labels[i], next[i]);
    PieceOf(s, t, p, Data(k.value, x));
    forall j | 0 <= j < |Everything(b)|
      ensures Clear(ImageOf(t), p + 4, |x|, RowOf(b, j), |Everything(b)[j].name| + 1)
      ensures j != i && Everything(b)[j].data.Some? ==>
        Clear(ImageOf(t), p + 4, |x|, RowOf(b, j) + 12, Capacity(Everything(b)[j]))
    {
      FileClear(s, t, b, labels, next, i, j);
    }
    forall j | 0 <= j < |b.tests|
      ensures Clear(ImageOf(t), p + 4, |x|, 12 + ROW * j + 12, |b.tests[j].input| + 1)
      ensures Clear(ImageOf(t), p + 4, |x|, 12 + ROW * j + 16, |b.tests[j].output| + 1)
    {
      TestParts(s, b, root, own, outcomes, labels, next, j);
      TestCells(s, TESTS + ROW * j, b.tests[j], FsLink(own[j], root), outcomes[j]);
      DataAndString(s, t, p, k.value, x, TESTS + ROW * j + 12, b.tests[j].input);
      DataAndString(s, t, p, k.value, x, TESTS + ROW * j + 16, b.tests[j].output);
    }
    CellIn(s, 0, HeadRow(b), 1);
    DataAndString(s, t, p, k.value, x, 4, b.exe);
  }

  lemma RowsSeen(s: Image, t: Image, b: Bundle, labels: seq<FileLabels>, next: seq<Option<Key>>)
    requires FilesLaid(s, Files(b), Everything(b), labels, next) && Fits(s, t)
    requires Files(b) + ROW * |Everything(b)| <= |s.out|
    ensures forall j :: 0 <= j < |Everything(b)| ==> FileAt(ImageOf(t), RowOf(b, j), Everything(b)[j])
  {
    hide Fits, FilesLaid, ImageOf, Word, FileLaid, Everything, FileAt;
    forall j | 0 <= j < |Everything(b)| ensures FileAt(ImageOf(t), RowOf(b, j), Everything(b)[j]) {
      FileParts(s, t, b, labels, next, j);
      FileFound(s, t, Files(b) + ROW * j, Everything(b)[j], labels[j], next[j]);
    }
  }

  lemma StringBehind(s: Image, t: Image, b: Bundle, p: nat, text: seq<byte>)
    requires Fits(s, t) && Holds(s, p, Str(text)) && |s.out| == Files(b) + ROW * |Everything(b)|
    ensures Behind(ImageOf(t), b, p + 4)
  {
    hide Fits, ImageOf, Word, Everything, Holds;
    PieceOf(s, t, p, Str(text));
  }

  lemma AllBehind(s: Image, t: Image, b: Bundle, root: Option<Key>, own: seq<Option<Key>>, outcomes: seq<Key>,
                  labels: seq<FileLabels>, next: seq<Option<Key>>)
    requires b.tests != [] && Fits(s, t) && Complete(s, b, root, own, outcomes, labels, next)
    ensures StringsBehind(ImageOf(t), b)
  {
    hide Complete, Fits, FilesLaid, TestsLaid, TestLaid, Laid, ImageOf, Word, FileLaid, DataApart, Holds, AllFiles,
      Behind;
    Parts(s, t, b, root, own, outcomes, labels, next);
    CellIn(s, 0, HeadRow(b), 1);
    StringBehind(s, t, b, 4, b.exe);
    forall k | 0 <= k < |b.tests|
      ensures Behind(ImageOf(t), b, 12 + ROW * k + 12) && Behind(ImageOf(t), b, 12 + ROW * k + 16)
    {
      TestParts(s, b, root, own, outcomes, labels, next, k);
      TestCells(s, TESTS + ROW * k, b.tests[k], FsLink(own[k], root), outcomes[k]);
      StringBehind(s, t, b, TESTS + ROW * k + 12, b.tests[k].input);
      StringBehind(s, t, b, TESTS + ROW * k + 16, b.tests[k].output);
    }
    forall j | 0 <= j < |Everything(b)| ensures Behind(ImageOf(t), b, RowOf(b, j)) {
      FileParts(s, t, b, labels, next, j);
      FileCells(s, Files(b) + ROW * j, Everything(b)[j], labels[j], next[j]);
      StringBehind(s, t, b, Files(b) + ROW * j, Everything(b)[j].name);
    }
  }

  /** No two files share an inode number, and no data overlaps anything else. */
  lemma Separated(s: Image, t: Image, b: Bundle, outcomes: seq<Key>, labels: seq<FileLabels>)
    requires RoundTrip.Done(s, t, b, outcomes, labels)
    ensures Separate(ImageOf(t), b)
  {
    var root, own, next :| Complete(s, b, root, own, outcomes, labels, next) && (root.None? <==> b.files == []);
    hide Complete, Fits, FilesLaid, TestsLaid, FileLaid, Laid, ImageOf, Word, DataApart, AllFiles, DataClear, Inodes,
      FileAt, StringsBehind;
    Parts(s, t, b, root, own, outcomes, labels, next);
    InodesApart(s, t, b, labels, next);
    forall i | 0 <= i < |Everything(b)| && Everything(b)[i].data.Some? ensures DataClear(ImageOf(t), b, i) {
      DataIsClear(s, t, b, root, own, outcomes, labels, next, i);
    }
    RowsSeen(s, t, b, labels, next);
    AllBehind(s, t, b, root, own, outcomes, labels, next);
  }
}
