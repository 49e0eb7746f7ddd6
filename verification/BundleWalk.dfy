/** The bundle as the kernel reads it (struct bundle, struct test, struct file), and the round trip. */
module BundleWalk {
  import opened Integers
  import opened Bytes
  import opened Linker
  import opened BundleRows
  import opened FileLists
  import opened BundleDump

  /** The linear address of the bundle, its size word included. */
  const LINEAR := 0xc100_0000

  /** The enumeration in struct file of kernel/fs.h. */
  const FILE_READONLY := 0
  const FILE_READWRITE := 1

  /** The pointer at offset `p` of the image goes to the string. */
  ghost predicate PointsTo(m: seq<byte>, p: nat, s: seq<byte>) {
    p + 4 <= |m| && Word(m, p) >= LINEAR && StringAt(m, Word(m, p) - LINEAR, CutAtNul(s))
  }

  /** The pointer `w` goes to the data, aligned; it is null when the file has none. */
  ghost predicate DataAt(m: seq<byte>, w: nat, data: Option<seq<byte>>) {
    match data
    case None => w == 0
    case Some(x) =>
      w >= LINEAR && w % 4 == 0 && w - LINEAR + |x| <= |m| && m[w - LINEAR..w - LINEAR + |x|] == x
  }

  ghost predicate FileAt(m: seq<byte>, p: nat, f: File) {
    && p + ROW <= |m| && PointsTo(m, p, f.name)
    && (Word(m, p + 8) == FILE_READONLY <==> f.access == ReadOnly)
    && (Word(m, p + 8) == FILE_READWRITE <==> f.access == ReadWrite)
    && DataAt(m, Word(m, p + 12), f.data)
    && Word(m, p + 16) == f.sz
    && Word(m, p + 20) == (match f.data case None => 0 case Some(x) => |x|)
  }

  /** Following `next` from the pointer `w` gives the files, then null. */
  ghost predicate ListFrom(m: seq<byte>, w: nat, fs: seq<File>)
    decreases |fs|
  {
    if fs == [] then w == 0
    else w >= LINEAR && FileAt(m, w - LINEAR, fs[0]) && ListFrom(m, Word(m, w - LINEAR + 24), fs[1..])
  }

  ghost predicate TestAt(m: seq<byte>, p: nat, t: Test, common: seq<File>) {
    && p + ROW <= |m| && Word64(m, p) == t.tl && Word(m, p + 8) == t.ml
    && PointsTo(m, p + 12, t.input) && PointsTo(m, p + 16, t.output)
    && ListFrom(m, Word(m, p + 20), t.fs + common)
    && Word(m, p + 24) == 0
  }

  /** What the kernel finds: each test sees its own files and then the common ones. */
  ghost predicate Sees(m: seq<byte>, b: Bundle) {
    && 12 <= |m| && Word(m, 0) == |m| - 4 && Word(m, 4) == |b.tests| - 1 && PointsTo(m, 8, b.exe)
    && forall i :: 0 <= i < |b.tests| ==> TestAt(m, 12 + ROW * i, b.tests[i], b.files)
  }

  /** Two descriptions of files say the same, as far as C strings go. */
  ghost predicate SameFile(f: File, g: File) {
    CutAtNul(f.name) == CutAtNul(g.name) && f.access == g.access && f.data == g.data && f.sz == g.sz
  }

  lemma FileUnique(m: seq<byte>, p: nat, f: File, g: File)
    requires FileAt(m, p, f) && FileAt(m, p, g)
    ensures SameFile(f, g)
  {
    StringUnique(m, Word(m, p) - LINEAR, CutAtNul(f.name), CutAtNul(g.name));
    hide StringAt, Word;
  }

  /** A pointer leads to one list only: names, rights, data, sizes and their order. */
  lemma {:induction false} ListUnique(m: seq<byte>, w: nat, fs: seq<File>, gs: seq<File>)
    requires ListFrom(m, w, fs) && ListFrom(m, w, gs)
    ensures |fs| == |gs| && forall i :: 0 <= i < |fs| ==> SameFile(fs[i], gs[i])
    decreases |fs|
  {
    hide Word, PointsTo, DataAt, SameFile;
    if fs != [] && gs != [] {
      var p := w - LINEAR;
      FileUnique(m, p, fs[0], gs[0]);
      hide FileAt;
      ListUnique(m, Word(m, p + 24), fs[1..], gs[1..]);
      forall i | 0 <= i < |fs| ensures SameFile(fs[i], gs[i]) {
        assert i > 0 ==> fs[i] == fs[1..][i - 1] && gs[i] == gs[1..][i - 1];
      }
    }
  }

  // ---- from the cells to what the kernel finds ----

  /** The image: the size word, and what the writer wrote. */
  function ImageOf(t: Image): (m: seq<byte>)
    ensures |m| == |t.out| + 4
  {
    Le(|t.out|, 4) + t.out
  }

  lemma ImageWord(t: Image, p: nat)
    requires p + 4 <= |t.out|
    ensures Word(ImageOf(t), p + 4) == Word(t.out, p)
  {
    var m := ImageOf(t);
    assert m[p + 4..p + 8] == t.out[p..p + 4];
    WordAt(m, t.out, p + 4, p);
  }

  lemma ImageSize(t: Image)
    requires |t.out| < U32
    ensures Word(ImageOf(t), 0) == |t.out|
  {
    LeWord(|t.out|);
    WordAt(ImageOf(t), Le(|t.out|, 4), 0, 0);
  }

  /** A linked image that fits behind its address. */
  ghost predicate Fits(s: Image, t: Image) {
    Ok(s) && Linked(s, t) && |t.out| + BASE < U32
  }

  /** What the kernel finds in a linked word. */
  ghost predicate Found(s: Image, t: Image, m: seq<byte>, p: nat, c: Cell) {
    p + 4 <= |m| &&
    match c
    case Fixed(v) => Word(m, p) == v
    case Str(text) => PointsTo(m, p, text)
    case Ino => Word(m, p) >= FIRST_INODE
    case Data(k, bytes) => DataAt(m, Word(m, p), Some(bytes)) && k in t.labels && t.labels[k] == Addr(Word(m, p))
    case Link(k) => k in s.labels && (s.labels[k].Addr? && s.labels[k].at < U32 ==> Word(m, p) == s.labels[k].at)
  }

  /** The bytes `x` stand at the linear address `a`. */
  ghost predicate Piece(m: seq<byte>, a: nat, x: seq<byte>) {
    LINEAR <= a && a - LINEAR + |x| <= |m| && m[a - LINEAR..a - LINEAR + |x|] == x
  }

  lemma ImageSlice(t: Image, at: nat, n: nat)
    requires at + n <= |t.out|
    ensures ImageOf(t)[at + 4..at + 4 + n] == t.out[at..at + n]
  {
    assert |Le(|t.out|, 4)| == 4;
    hide Le;
  }

  lemma PlacedFound(s: Image, t: Image, k: Key)
    requires Fits(s, t) && k in s.labels && s.labels[k].Blob? && k in t.labels && t.labels[k].Addr?
    ensures Piece(ImageOf(t), t.labels[k].at, s.labels[k].data) && t.labels[k].at < U32
    ensures s.labels[k].q == 4 ==> t.labels[k].at % 4 == 0
  {
    hide Ok, LabelsGoing, FilledIn, ImageOf;
    LabelsAt(s, t, k);
    assert Placed(s, t, k);
    ImageSlice(t, t.labels[k].at - BASE, |s.labels[k].data|);
  }

  lemma ClosedKept(s: Image, t: Image, p: nat)
    requires Base(s, t) && Closed(s, p)
    ensures p + 4 <= |t.out| && Word(t.out, p) == Word(s.out, p)
  {
    hide LabelsGoing;
    assert t.out[p..p + 4] == s.out[p..p + 4];
    WordAt(t.out, s.out, p, p);
  }

  lemma CellFixed(s: Image, t: Image, p: nat, v: nat)
    requires Fits(s, t) && Holds(s, p, Fixed(v))
    ensures Found(s, t, ImageOf(t), p + 4, Fixed(v))
  {
    hide Ok, Base, FilledIn, Word, ImageOf, Closed;
    ClosedKept(s, t, p);
    ImageWord(t, p);
  }

  lemma CellOpen(s: Image, t: Image, p: nat, c: Cell)
    requires Fits(s, t) && Holds(s, p, c) && !c.Fixed?
    ensures p in s.refs && p + 4 <= |t.out| && Filled(s, t, p) && Word(ImageOf(t), p + 4) == Word(t.out, p)
  {
    InPrefix(s, t, p);
    ImageWord(t, p);
  }

  lemma PieceString(m: seq<byte>, a: nat, text: seq<byte>)
    requires Piece(m, a, text + [0])
    ensures StringAt(m, a - LINEAR, CutAtNul(text))
  {
    StringStored(m, a - LINEAR, text);
  }

  lemma CellStr(s: Image, t: Image, p: nat, text: seq<byte>)
    requires Fits(s, t) && Holds(s, p, Str(text))
    ensures Found(s, t, ImageOf(t), p + 4, Str(text))
  {
    hide Fits, Word, ImageOf, StringAt, CutAtNul;
    CellOpen(s, t, p, Str(text));
    var k := s.refs[p];
    PlacedFound(s, t, k);
    PieceString(ImageOf(t), t.labels[k].at, text);
  }

  lemma PieceData(m: seq<byte>, a: nat, bytes: seq<byte>)
    requires Piece(m, a, bytes) && a % 4 == 0
    ensures DataAt(m, a, Some(bytes))
  {
  }

  lemma CellData(s: Image, t: Image, p: nat, k: Key, bytes: seq<byte>)
    requires Fits(s, t) && Holds(s, p, Data(k, bytes))
    ensures Found(s, t, ImageOf(t), p + 4, Data(k, bytes))
  {
    hide Fits, Word, ImageOf, Piece, DataAt;
    CellOpen(s, t, p, Data(k, bytes));
    PlacedFound(s, t, k);
    PieceData(ImageOf(t), t.labels[k].at, bytes);
  }

  /** Each word is what the kernel needs it to be. */
  lemma CellFound(s: Image, t: Image, p: nat, c: Cell)
    requires Fits(s, t) && Holds(s, p, c)
    ensures Found(s, t, ImageOf(t), p + 4, c)
  {
    hide Fits, Word, ImageOf, PointsTo, DataAt, Closed;
    match c
    case Fixed(v) => CellFixed(s, t, p, v);
    case Str(text) => CellStr(s, t, p, text);
    case Data(k, bytes) => CellData(s, t, p, k, bytes);
    case Ino =>
      CellOpen(s, t, p, c);
    case Link(k) =>
      CellOpen(s, t, p, c);
  }

  lemma RowFound(s: Image, t: Image, p: nat, cells: seq<Cell>, i: nat)
    requires Fits(s, t) && Laid(s, p, cells) && i < |cells|
    ensures Found(s, t, ImageOf(t), p + 4 + 4 * i, cells[i])
  {
    hide Fits, Holds, Found;
    CellFound(s, t, p + 4 * i, cells[i]);
  }

  /** A row of the writer is a struct file of the kernel. */
  lemma RowCells(f: File, data: Option<Key>, next: Option<Key>)
    requires data.Some? <==> f.data.Some?
    ensures var row := FileRow(f, data, next);
      && row[0] == Str(f.name) && row[2] == Fixed(if f.access == ReadOnly then 0 else 1)
      && row[3] == (if f.data.Some? then Data(data.value, f.data.value) else Fixed(0))
      && row[4] == Fixed(f.sz) && row[5] == Fixed(Capacity(f) % U32) && row[6] == LinkCell(next)
  {
  }

  lemma FileFound(s: Image, t: Image, p: nat, f: File, a: FileLabels, next: Option<Key>)
    requires Fits(s, t) && FileLaid(s, p, f, a, next)
    ensures FileAt(ImageOf(t), p + 4, f) && Found(s, t, ImageOf(t), p + 28, LinkCell(next))
    ensures f.data.Some? ==> a.data.value in t.labels && t.labels[a.data.value] == Addr(Word(ImageOf(t), p + 16))
  {
    hide Laid, Word, ImageOf, PointsTo, StringAt, Linked, Ok, FileRow;
    var row := FileRow(f, a.data, next);
    RowCells(f, a.data, next);
    RowFound(s, t, p, row, 0);
    RowFound(s, t, p, row, 2);
    RowFound(s, t, p, row, 3);
    RowFound(s, t, p, row, 4);
    RowFound(s, t, p, row, 5);
    RowFound(s, t, p, row, 6);
  }

  /** The address a link stands for. */
  ghost predicate Leads(s: Image, k: Option<Key>, w: nat) {
    if k.None? then w == 0 else k.value in s.labels && s.labels[k.value] == Addr(w) && w < U32
  }

  lemma LeadsFound(s: Image, t: Image, p: nat, k: Option<Key>, w: nat)
    requires p + 4 <= |t.out| + 4 && Found(s, t, ImageOf(t), p, LinkCell(k)) && Leads(s, k, w)
    ensures Word(ImageOf(t), p) == w
  {
  }

  /** The words of a row are what a struct test needs. */
  lemma TestFound(s: Image, t: Image, p: nat, u: Test, fs: Option<Key>, outcome: Key, w: nat, common: seq<File>)
    requires Fits(s, t) && TestLaid(s, p, u, fs, outcome) && p + ROW <= |t.out|
    requires Leads(s, fs, w) && ListFrom(ImageOf(t), w, u.fs + common)
    ensures TestAt(ImageOf(t), p + 4, u, common)
  {
    hide Laid, Word, ImageOf, PointsTo, Fits, ListFrom, Leads, LinkCell;
    var row := TestRow(u, fs);
    RowFound(s, t, p, row, 0);
    RowFound(s, t, p, row, 1);
    RowFound(s, t, p, row, 2);
    RowFound(s, t, p, row, 3);
    RowFound(s, t, p, row, 4);
    RowFound(s, t, p, row, 5);
    RowFound(s, t, p, row, 6);
    LeadsFound(s, t, p + 24, fs, w);
  }

  lemma ChainAt(s: Image, p: nat, lo: nat, j: nat, hi: nat, next: seq<Option<Key>>, tail: Option<Key>)
    requires Chained(s, p, lo, hi, next, tail) && lo <= j < hi
    requires p + ROW * hi + BASE <= U32
    ensures if j == hi - 1 then next[j] == tail else Leads(s, next[j], p + ROW * (j + 1) + BASE)
  {
  }

  lemma RowIn(s: Image, t: Image, p: nat, fs: seq<File>, labels: seq<FileLabels>, next: seq<Option<Key>>, j: nat)
    requires FilesLaid(s, p, fs, labels, next) && j < |fs| && p + ROW * |fs| <= |s.out| && Fits(s, t)
    ensures |labels| == |next| == |fs| && FileLaid(s, p + ROW * j, fs[j], labels[j], next[j])
    ensures p + ROW * |fs| <= |t.out| && |t.out| + BASE < U32
  {
  }

  /** Rows linked in the writer are a list of the kernel. */
  lemma {:induction false} ListFound(s: Image, t: Image, p: nat, fs: seq<File>, labels: seq<FileLabels>,
                                     next: seq<Option<Key>>,
                    lo: nat, j: nat, hi: nat, tail: Option<Key>, w: nat, rest: seq<File>)
    requires Fits(s, t) && FilesLaid(s, p, fs, labels, next) && Chained(s, p, lo, hi, next, tail)
    requires lo <= j < hi <= |fs|
    requires p + ROW * |fs| <= |s.out| && Leads(s, tail, w) && ListFrom(ImageOf(t), w, rest)
    ensures ListFrom(ImageOf(t), p + ROW * j + BASE, fs[j..hi] + rest)
    decreases hi - j
  {
    hide Fits, FileLaid, Word, ImageOf, FilesLaid, FileAt, Found, Chained, Leads;
    var q := p + ROW * j;
    var m, list := ImageOf(t), fs[j..hi] + rest;
    RowIn(s, t, p, fs, labels, next, j);
    ChainAt(s, p, lo, j, hi, next, tail);
    FileFound(s, t, q, fs[j], labels[j], next[j]);
    assert list[0] == fs[j] && q + BASE - LINEAR == q + 4;
    if j == hi - 1 {
      LeadsFound(s, t, q + 28, tail, w);
      assert list[1..] == rest;
    } else {
      LeadsFound(s, t, q + 28, next[j], q + ROW + BASE);
      assert list[1..] == fs[j + 1..hi] + rest;
      ListFound(s, t, p, fs, labels, next, lo, j + 1, hi, tail, w, rest);
    }
  }
}
