/** The structures of the bundle as rows of words: what File::_dump and Test::_dump write. */
module BundleRows {
  import opened Integers
  import opened Bytes
  import opened Linker

  type u32 = x: int | 0 <= x < U32
  type u64 = x: int | 0 <= x < U64

  datatype Access = ReadOnly | ReadWrite

  datatype File = File(name: seq<byte>, access: Access, data: Option<seq<byte>>, sz: u32)

  datatype Test = Test(tl: u64, ml: u32, input: seq<byte>, output: seq<byte>, fs: seq<File>)

  /** Both kinds of row, struct test and struct file, are seven words long. */
  const ROW := 28

  /** The labels File::_dump leaves in the fields data_addr and sz_addr. */
  datatype FileLabels = FileLabels(data: Option<Key>, sz: Key)

  /** A word of a row. */
  datatype Cell =
    | Fixed(v: nat)
    | Str(text: seq<byte>)
    | Ino
    | Data(key: Key, bytes: seq<byte>)
    | Link(target: Key)

  /** The four bytes at `p` are written and not left open. */
  predicate Closed(s: Image, p: nat) {
    p + 4 <= |s.out| && !Open(s.refs, p) && !Open(s.refs, p + 1) && !Open(s.refs, p + 2) && !Open(s.refs, p + 3)
  }

  predicate Names(s: Image, p: nat, l: Label) {
    p in s.refs && s.refs[p] in s.labels && s.labels[s.refs[p]] == l
  }

  predicate Holds(s: Image, p: nat, c: Cell) {
    match c
    case Fixed(v) => Closed(s, p) && Word(s.out, p) == v
    case Str(text) => Names(s, p, Blob(text + [0], 1))
    case Ino => Names(s, p, Inode)
    case Data(k, bytes) => Names(s, p, Blob(bytes, 4)) && s.refs[p] == k
    case Link(k) => p in s.refs && s.refs[p] == k
  }

  /** The cells stand in `s` from `p` on. */
  predicate Laid(s: Image, p: nat, cells: seq<Cell>) {
    && p + 4 * |cells| <= |s.out|
    && forall i :: 0 <= i < |cells| ==> Holds(s, p + 4 * i, cells[i])
  }

  lemma HoldsGrows(s: Image, t: Image, p: nat, c: Cell)
    requires Holds(s, p, c) && Extends(s, t) && p + 4 <= |s.out|
    ensures Holds(t, p, c)
  {
  }

  lemma LaidGrows(s: Image, t: Image, p: nat, cells: seq<Cell>)
    requires Laid(s, p, cells) && Extends(s, t)
    ensures Laid(t, p, cells)
  {
    forall i | 0 <= i < |cells| ensures Holds(t, p + 4 * i, cells[i]) {
      HoldsGrows(s, t, p + 4 * i, cells[i]);
    }
  }

  /** From `s` to `t` the cells are written, and nothing else. */
  ghost predicate Grown(s: Image, t: Image, cells: seq<Cell>) {
    Appends(s, t) && |t.out| == |s.out| + 4 * |cells| && Laid(t, |s.out|, cells)
  }

  lemma GrownStart(s: Image)
    ensures Grown(s, s, [])
  {
  }

  /** One more word. */
  lemma GrownNext(s: Image, t: Image, u: Image, cells: seq<Cell>, c: Cell)
    requires Grown(s, t, cells) && Appends(t, u) && |u.out| == |t.out| + 4 && Holds(u, |t.out|, c)
    ensures Grown(s, u, cells + [c])
  {
    AppendsTrans(s, t, u);
    hide Holds, Extends;
    LaidGrows(t, u, |s.out|, cells);
  }

  lemma GrownSame(s: Image, t: Image, u: Image, cells: seq<Cell>)
    requires Grown(s, t, cells) && Appends(t, u) && |u.out| == |t.out|
    ensures Grown(s, u, cells)
  {
    AppendsTrans(s, t, u);
    hide Holds, Extends;
    LaidGrows(t, u, |s.out|, cells);
  }

  function AccessWord(a: Access): u32 {
    if a == ReadOnly then 0 else 1
  }

  function Capacity(f: File): nat {
    if f.data.Some? then |f.data.value| else 0
  }

  function LinkCell(k: Option<Key>): Cell {
    if k.Some? then Link(k.value) else Fixed(0)
  }

  function FileHead(f: File, data: Option<Key>): (r: seq<Cell>)
    requires data.Some? <==> f.data.Some?
    ensures |r| == 4
  {
    [Str(f.name), Ino, Fixed(AccessWord(f.access)), if f.data.Some? then Data(data.value, f.data.value) else Fixed(0)]
  }

  /** struct file of kernel/fs.h. */
  function FileRow(f: File, data: Option<Key>, next: Option<Key>): (r: seq<Cell>)
    requires data.Some? <==> f.data.Some?
    ensures |r| == 7
  {
    FileHead(f, data) + [Fixed(f.sz), Fixed(Capacity(f) % U32), LinkCell(next)]
  }

  function TestHead(t: Test): (r: seq<Cell>)
    ensures |r| == 5
  {
    [Fixed(t.tl % U32), Fixed(t.tl / U32), Fixed(t.ml), Str(t.input), Str(t.output)]
  }

  /** struct test of kernel/bundle.h; the last word is the outcome. */
  function TestRow(t: Test, fs: Option<Key>): (r: seq<Cell>)
    ensures |r| == 7
  {
    TestHead(t) + [LinkCell(fs), Fixed(0)]
  }

  predicate Labels(s: Image, k: Key, p: nat) {
    k in s.labels && s.labels[k] == Addr(p + BASE)
  }

  predicate FileLaid(s: Image, p: nat, f: File, a: FileLabels, next: Option<Key>) {
    && (a.data.Some? <==> f.data.Some?)
    && Laid(s, p, FileRow(f, a.data, next)) && Labels(s, a.sz, p + 16)
  }

  predicate TestLaid(s: Image, p: nat, t: Test, fs: Option<Key>, outcome: Key) {
    Laid(s, p, TestRow(t, fs)) && Labels(s, outcome, p + 24)
  }

  lemma Appended(s: Image, t: Image)
    requires Appends(s, t)
    ensures Extends(s, t)
  {
  }

  lemma LabelGrows(s: Image, t: Image, k: Key, p: nat)
    requires Labels(s, k, p) && Extends(s, t)
    ensures Labels(t, k, p)
  {
  }

  lemma FileGrows(s: Image, t: Image, p: nat, f: File, a: FileLabels, next: Option<Key>)
    requires FileLaid(s, p, f, a, next) && Extends(s, t)
    ensures FileLaid(t, p, f, a, next)
  {
    hide Laid, FileRow;
    LaidGrows(s, t, p, FileRow(f, a.data, next));
  }

  lemma TestGrows(s: Image, t: Image, p: nat, u: Test, fs: Option<Key>, outcome: Key)
    requires TestLaid(s, p, u, fs, outcome) && Extends(s, t)
    ensures TestLaid(t, p, u, fs, outcome)
  {
    hide Laid, TestRow;
    LaidGrows(s, t, p, TestRow(u, fs));
  }

  // ---- writing one word ----

  lemma WrittenWord(b: Image, v: nat)
    requires Ok(b)
    ensures Holds(Written(b, Le(v, 4)), |b.out|, Fixed(v % U32))
  {
    var t := Written(b, Le(v, 4));
    LeWord(v);
    assert t.out[|b.out|..|b.out| + 4] == Le(v, 4)[0..4];
    WordAt(t.out, Le(v, 4), |b.out|, 0);
  }

  lemma WrittenWords(b: Image, v: nat)
    requires Ok(b) && v < U64
    ensures Holds(Written(b, Le(v, 8)), |b.out|, Fixed(v % U32))
    ensures Holds(Written(b, Le(v, 8)), |b.out| + 4, Fixed(v / U32))
  {
    var t := Written(b, Le(v, 8));
    LeWord64(v);
    assert t.out[|b.out|..|b.out| + 4] == Le(v, 8)[0..4];
    WordAt(t.out, Le(v, 8), |b.out|, 0);
    assert t.out[|b.out| + 4..|b.out| + 8] == Le(v, 8)[4..8];
    WordAt(t.out, Le(v, 8), |b.out| + 4, 4);
  }

  method PutFixed(d: Builder, v: nat)
    requires d.Valid()
    modifies d`out
    ensures d.Valid() && Appends(old(d.S()), d.S()) && |d.out| == old(|d.out|) + 4
    ensures Holds(d.S(), old(|d.out|), Fixed(v % U32))
  {
    WrittenWord(d.S(), v);
    d.Write(Le(v, 4));
  }

  method PutText(d: Builder, text: seq<byte>)
    requires d.Valid()
    modifies d`out, d`refs, d`labels, d`counter
    ensures d.Valid() && Appends(old(d.S()), d.S()) && |d.out| == old(|d.out|) + 4
    ensures Holds(d.S(), old(|d.out|), Str(text))
  {
    hide Ok, Single, Extends;
    ghost var s := d.S();
    var k := d.SetLabelString(text);
    ghost var t := d.S();
    d.WriteLabel(k);
    AppendsTrans(s, t, d.S());
  }

  method PutInode(d: Builder)
    requires d.Valid()
    modifies d`out, d`refs, d`labels, d`counter
    ensures d.Valid() && Appends(old(d.S()), d.S()) && |d.out| == old(|d.out|) + 4
    ensures Holds(d.S(), old(|d.out|), Ino)
  {
    hide Ok, Single, Extends;
    ghost var s := d.S();
    var k := d.SetLabelInode();
    ghost var t := d.S();
    d.WriteLabel(k);
    AppendsTrans(s, t, d.S());
  }

  method PutData(d: Builder, data: seq<byte>) returns (k: Key)
    requires d.Valid()
    modifies d`out, d`refs, d`labels, d`counter
    ensures d.Valid() && Appends(old(d.S()), d.S()) && |d.out| == old(|d.out|) + 4
    ensures Holds(d.S(), old(|d.out|), Data(k, data)) && k.Num? && old(d.counter) <= k.n < d.counter
  {
    hide Ok, Single, Extends;
    ghost var s := d.S();
    k := d.SetLabelBytes(data, 4);
    ghost var t := d.S();
    d.WriteLabel(k);
    AppendsTrans(s, t, d.S());
  }

  /** A label handed out, for an address. */
  predicate LinkOk(s: Image, k: Option<Key>) {
    k.Some? ==> k.value.Num? && k.value.n < s.counter && (k.value in s.labels ==> s.labels[k.value].Addr?)
  }

  lemma LinkStays(s: Image, t: Image, k: Option<Key>)
    requires LinkOk(s, k) && Appends(s, t)
    ensures LinkOk(t, k)
  {
  }

  /** maybe_write_label. */
  method PutLink(d: Builder, k: Option<Key>)
    requires d.Valid() && LinkOk(d.S(), k)
    modifies d`out, d`refs
    ensures d.Valid() && Appends(old(d.S()), d.S()) && |d.out| == old(|d.out|) + 4
    ensures Holds(d.S(), old(|d.out|), LinkCell(k))
  {
    if k.Some? {
      d.WriteLabel(k.value);
    } else {
      PutFixed(d, 0);
    }
  }

  /** A new label for the next byte. */
  method Mark(d: Builder) returns (k: Key)
    requires d.Valid()
    modifies d`labels, d`counter
    ensures d.Valid() && Appends(old(d.S()), d.S()) && d.out == old(d.out)
    ensures Labels(d.S(), k, |d.out|) && k.Num? && old(d.counter) <= k.n < d.counter
  {
    hide Ok, Single, Extends;
    ghost var s := d.S();
    k := d.GetLabel();
    ghost var t := d.S();
    d.SetLabel(k);
    ExtendsTrans(s, t, d.S());
  }

  lemma CounterGrows(s: Image, t: Image)
    requires Appends(s, t)
    ensures s.counter <= t.counter
  {
  }

  /** The first four words of File::_dump. */
  method DumpFileHead(d: Builder, f: File) returns (data: Option<Key>)
    requires d.Valid()
    modifies d`out, d`refs, d`labels, d`counter
    ensures d.Valid() && (data.Some? <==> f.data.Some?) && Grown(old(d.S()), d.S(), FileHead(f, data))
    ensures data.Some? ==> data.value.Num? && old(d.counter) <= data.value.n < d.counter
  {
    hide Ok, Single, Holds, Extends, Laid;
    ghost var s, row := d.S(), [];
    GrownStart(s);
    ghost var t := s;
    PutText(d, f.name);
    GrownNext(s, t, d.S(), row, Str(f.name));
    t, row := d.S(), row + [Str(f.name)];
    PutInode(d);
    GrownNext(s, t, d.S(), row, Ino);
    t, row := d.S(), row + [Ino];
    PutFixed(d, AccessWord(f.access));
    GrownNext(s, t, d.S(), row, Fixed(AccessWord(f.access)));
    t, row := d.S(), row + [Fixed(AccessWord(f.access))];
    if f.data.Some? {
      var k := PutData(d, f.data.value);
      GrownNext(s, t, d.S(), row, Data(k, f.data.value));
      CounterGrows(s, t);
      data := Some(k);
      assert row + [Data(k, f.data.value)] == FileHead(f, data);
    } else {
      PutFixed(d, 0);
      GrownNext(s, t, d.S(), row, Fixed(0));
      data := None;
      assert row + [Fixed(0)] == FileHead(f, data);
    }
  }

  /** File::_dump. */
  method DumpFile(d: Builder, f: File, next: Option<Key>) returns (a: FileLabels)
    requires d.Valid() && LinkOk(d.S(), next)
    modifies d`out, d`refs, d`labels, d`counter
    ensures d.Valid() && Appends(old(d.S()), d.S()) && |d.out| == old(|d.out|) + ROW
    ensures FileLaid(d.S(), old(|d.out|), f, a, next)
    ensures a.data.Some? ==> a.data.value.Num? && old(d.counter) <= a.data.value.n < d.counter
  {
    hide Ok, Single, Holds, Appends, Extends, Laid, LinkOk, FileHead;
    ghost var s := d.S();
    var data := DumpFileHead(d, f);
    ghost var t, row := d.S(), FileHead(f, data);
    var sz := Mark(d);
    GrownSame(s, t, d.S(), row);
    t := d.S();
    PutFixed(d, f.sz);
    GrownNext(s, t, d.S(), row, Fixed(f.sz));
    Appended(t, d.S());
    LabelGrows(t, d.S(), sz, |s.out| + 16);
    t, row := d.S(), row + [Fixed(f.sz)];
    PutFixed(d, Capacity(f));
    GrownNext(s, t, d.S(), row, Fixed(Capacity(f) % U32));
    Appended(t, d.S());
    LabelGrows(t, d.S(), sz, |s.out| + 16);
    t, row := d.S(), row + [Fixed(Capacity(f) % U32)];
    LinkStays(s, t, next);
    PutLink(d, next);
    GrownNext(s, t, d.S(), row, LinkCell(next));
    Appended(t, d.S());
    LabelGrows(t, d.S(), sz, |s.out| + 16);
    CounterGrows(s, t);
    CounterGrows(t, d.S());
    a := FileLabels(data, sz);
    assert row + [LinkCell(next)] == FileRow(f, data, next);
  }

  method PutWords(d: Builder, v: nat)
    requires d.Valid() && v < U64
    modifies d`out
    ensures d.Valid() && Grown(old(d.S()), d.S(), [Fixed(v % U32), Fixed(v / U32)])
  {
    hide Ok, Single, Holds, Extends;
    WrittenWords(d.S(), v);
    d.Write(Le(v, 8));
  }

  method DumpTestHead(d: Builder, u: Test)
    requires d.Valid()
    modifies d`out, d`refs, d`labels, d`counter
    ensures d.Valid() && Grown(old(d.S()), d.S(), TestHead(u))
  {
    hide Ok, Single, Holds, Extends, Laid;
    ghost var s := d.S();
    PutWords(d, u.tl);
    ghost var t, row := d.S(), [Fixed(u.tl % U32), Fixed(u.tl / U32)];
    PutFixed(d, u.ml);
    GrownNext(s, t, d.S(), row, Fixed(u.ml));
    t, row := d.S(), row + [Fixed(u.ml)];
    PutText(d, u.input);
    GrownNext(s, t, d.S(), row, Str(u.input));
    t, row := d.S(), row + [Str(u.input)];
    PutText(d, u.output);
    GrownNext(s, t, d.S(), row, Str(u.output));
    assert row + [Str(u.output)] == TestHead(u);
  }

  /** Test::_dump; the label is the one of the outcome word. */
  method DumpTest(d: Builder, u: Test, fs: Option<Key>) returns (outcome: Key)
    requires d.Valid() && LinkOk(d.S(), fs)
    modifies d`out, d`refs, d`labels, d`counter
    ensures d.Valid() && Appends(old(d.S()), d.S()) && |d.out| == old(|d.out|) + ROW
    ensures TestLaid(d.S(), old(|d.out|), u, fs, outcome)
  {
    hide Ok, Single, Holds, Appends, Extends, Laid, LinkOk;
    ghost var s := d.S();
    DumpTestHead(d, u);
    ghost var t, row := d.S(), TestHead(u);
    LinkStays(s, t, fs);
    PutLink(d, fs);
    GrownNext(s, t, d.S(), row, LinkCell(fs));
    t, row := d.S(), row + [LinkCell(fs)];
    outcome := Mark(d);
    GrownSame(s, t, d.S(), row);
    t := d.S();
    PutFixed(d, 0);
    GrownNext(s, t, d.S(), row, Fixed(0));
    Appended(t, d.S());
    LabelGrows(t, d.S(), outcome, |s.out| + 24);
    assert row + [Fixed(0)] == TestRow(u, fs);
  }
}
