/** The program headers of an ELF file (kernel/elf.c), loaded one after the other into memory. */
module ElfLoad {
  import opened Integers
  import opened Bytes
  import opened FileStore

  const PAGE := 4096
  const FIRST := 0x10_0000
  const END := 0xc000_0000
  const INTERP := 256

  /** struct elf_pheader, without p_paddr and p_align. */
  datatype Header = Header(kind: nat, offset: nat, vaddr: nat, filesz: nat, memsz: nat, flags: nat)

  /** Reading past the end of the file leaves zeros in the structure. */
  function HeaderBytes(file: seq<byte>, at: nat): (r: seq<byte>)
    ensures |r| == 32
  {
    PlainRead(file, at, 32) + Zeros(32 - |PlainRead(file, at, 32)|)
  }

  function ReadHeader(file: seq<byte>, at: nat): Header {
    var b := HeaderBytes(file, at);
    Header(Word(b, 0), Word(b, 4), Word(b, 8), Word(b, 16), Word(b, 20), Word(b, 24))
  }

  /** The headers load_elf goes through. */
  function Headers(file: seq<byte>, phoff: nat, n: nat): (r: seq<Header>)
    ensures |r| == n && forall i :: 0 <= i < n ==> r[i] == ReadHeader(file, (phoff + 32 * i) % U32)
  {
    seq(n, i requires 0 <= i < n => ReadHeader(file, (phoff + 32 * i) % U32))
  }

  /** What a header does: PT_PHDR, PT_DYNAMIC and, for the program itself, PT_INTERP are loaded like
      PT_LOAD. */
  predicate Loads(h: Header, main: bool) {
    h.kind == 1 || h.kind == 2 || h.kind == 6 || (h.kind == 3 && main)
  }

  function Start(h: Header, base: nat): nat {
    (h.vaddr + base) % U32
  }

  function Writable(h: Header): bool {
    h.flags / 2 % 2 == 1
  }

  predicate OutOfBounds(h: Header, base: nat, main: bool) {
    Loads(h, main) && (Start(h, base) < FIRST || Start(h, base) + h.memsz > END)
  }

  /** The header is refused, and load_elf fails. */
  predicate Refused(h: Header, base: nat, main: bool) {
    (main && h.kind == 3 && h.filesz >= INTERP) || OutOfBounds(h, base, main)
  }

  /** How many bytes a header writes: p_memsz zeros, and over them p_filesz bytes or what the file has
      of them. Usually the zeros are more, but nothing asks for that. */
  function Extent(file: seq<byte>, h: Header): nat {
    var n := |PlainRead(file, h.offset, h.filesz)|;
    if h.memsz < n then n else h.memsz
  }

  predicate Covers(file: seq<byte>, h: Header, base: nat, main: bool, a: nat) {
    Loads(h, main) && Start(h, base) <= a < Start(h, base) + Extent(file, h)
  }

  /** The byte a segment wants at `a`: of the file, or zero behind it. */
  function ByteOf(file: seq<byte>, h: Header, base: nat, a: nat): byte {
    var k := a - Start(h, base);
    if 0 <= k < h.filesz && h.offset + k < |file| then file[h.offset + k] else 0
  }

  /** Page `p` is mapped for the segment. */
  predicate Touches(h: Header, base: nat, main: bool, p: nat) {
    var s := Start(h, base);
    Loads(h, main) && s + h.memsz > 0 && s / PAGE <= p <= (s + h.memsz - 1) / PAGE
  }

  /** A byte of the segment lies on a page that is not mapped: the kernel faults, or, behind the
      program's part of the address space, writes over itself. `ps` is the pages before map_range. */
  predicate Missing(ps: map<nat, bool>, h: Header, base: nat, main: bool, a: nat) {
    a / PAGE !in ps && !Touches(h, base, main, a / PAGE)
  }

  ghost predicate Overruns(file: seq<byte>, h: Header, base: nat, main: bool, ps: map<nat, bool>) {
    exists a :: Covers(file, h, base, main, a) && Missing(ps, h, base, main, a)
  }

  /** How loading ends. */
  datatype Outcome = Done | Refusal | Overrun

  /** The pages from `from` to `to` are mapped, those with right `w` writable. */
  ghost predicate PagesAfter(ps: map<nat, bool>, ps': map<nat, bool>, from: nat, to: nat, w: bool) {
    && (forall p: nat :: p in ps' <==> p in ps || InRange(p, from, to))
    && (forall p: nat :: p in ps' ==> (ps'[p] <==> (p in ps && ps[p]) || (InRange(p, from, to) && w)))
  }

  ghost predicate BytesKept(bs: map<nat, byte>, bs': map<nat, byte>) {
    forall a :: a in bs ==> a in bs' && bs'[a] == bs[a]
  }

  /** A byte is there when its page is. */
  ghost predicate Backed(bytes: map<nat, byte>, pages: map<nat, bool>) {
    forall a: nat :: a in bytes <==> a / PAGE in pages
  }

  /** A fresh page, with what its frame happens to hold. */
  function PageBytes(p: nat, junk: nat -> byte): (m: map<nat, byte>)
    ensures forall a: nat :: a in m <==> a / PAGE == p
  {
    map a: nat | p * PAGE <= a < (p + 1) * PAGE :: junk(a)
  }

  ghost predicate SegmentPages(ps: map<nat, bool>, ps': map<nat, bool>, h: Header, base: nat, main: bool) {
    && (forall p: nat :: p in ps' <==> p in ps || Touches(h, base, main, p))
    && (forall p: nat :: p in ps' ==> (ps'[p] <==> (p in ps && ps[p]) || (Touches(h, base, main, p) && Writable(h))))
  }

  ghost predicate SegmentBytes(bs: map<nat, byte>, bs': map<nat, byte>, file: seq<byte>, h: Header, base: nat,
                               main: bool) {
    && (forall a: nat :: Covers(file, h, base, main, a) ==> a in bs' && bs'[a] == ByteOf(file, h, base, a))
    && (forall a: nat :: a in bs ==> a in bs' && (Covers(file, h, base, main, a) || bs'[a] == bs[a]))
  }

  /** One segment is loaded. */
  ghost predicate SegmentDone(bs: map<nat, byte>, ps: map<nat, bool>, bs': map<nat, byte>, ps': map<nat, bool>,
                              file: seq<byte>, h: Header, base: nat, main: bool) {
    SegmentPages(ps, ps', h, base, main) && SegmentBytes(bs, bs', file, h, base, main)
  }

  lemma NextOffset(phoff: nat, i: nat)
    ensures ((phoff + 32 * i) % U32 + 32) % U32 == (phoff + 32 * (i + 1)) % U32
  {
  }

  lemma RefusedWhen(h: Header, base: nat, main: bool)
    ensures Refused(h, base, main) <==>
      (main && h.kind == 3 && h.filesz >= INTERP) || OutOfBounds(h, base, main)
  {
  }

  lemma NotLoaded(bs: map<nat, byte>, ps: map<nat, bool>, file: seq<byte>, h: Header, base: nat, main: bool)
    requires !Loads(h, main)
    ensures SegmentDone(bs, ps, bs, ps, file, h, base, main)
  {
  }

  /** Header `j` is the last of the first `k` that covers `a`. */
  ghost predicate LastOver(file: seq<byte>, hs: seq<Header>, k: nat, base: nat, main: bool, a: nat, j: nat)
    requires k <= |hs|
  {
    && j < k && Covers(file, hs[j], base, main, a)
    && forall i :: j < i < k ==> !Covers(file, hs[i], base, main, a)
  }

  ghost predicate Untouched(file: seq<byte>, hs: seq<Header>, k: nat, base: nat, main: bool, a: nat)
    requires k <= |hs|
  {
    forall i :: 0 <= i < k ==> !Covers(file, hs[i], base, main, a)
  }

  ghost predicate Touched(hs: seq<Header>, k: nat, base: nat, main: bool, p: nat)
    requires k <= |hs|
  {
    exists i :: 0 <= i < k && Touches(hs[i], base, main, p)
  }

  ghost predicate TouchedToWrite(hs: seq<Header>, k: nat, base: nat, main: bool, p: nat)
    requires k <= |hs|
  {
    exists i :: 0 <= i < k && Touches(hs[i], base, main, p) && Writable(hs[i])
  }

  ghost predicate LoadedPages(ps: map<nat, bool>, ps': map<nat, bool>, hs: seq<Header>, k: nat, base: nat, main: bool)
    requires k <= |hs|
  {
    && (forall p: nat :: p in ps' <==> p in ps || Touched(hs, k, base, main, p))
    && (forall p: nat :: p in ps' ==> (ps'[p] <==> (p in ps && ps[p]) || TouchedToWrite(hs, k, base, main, p)))
  }

  ghost predicate LoadedBytes(bs: map<nat, byte>, bs': map<nat, byte>, file: seq<byte>, hs: seq<Header>, k: nat,
                              base: nat, main: bool)
    requires k <= |hs|
  {
    && (forall a: nat, j: nat :: LastOver(file, hs, k, base, main, a, j) ==>
          a in bs' && bs'[a] == ByteOf(file, hs[j], base, a))
    && (forall a: nat :: a in bs && Untouched(file, hs, k, base, main, a) ==> a in bs' && bs'[a] == bs[a])
  }

  /** After `k` headers: each covered byte is what the last header over it wants, every other byte
      is as it was, and the pages are those the headers touch, writable if one of them says so. */
  ghost predicate Loaded(bs: map<nat, byte>, ps: map<nat, bool>, bs': map<nat, byte>, ps': map<nat, bool>,
                         file: seq<byte>, hs: seq<Header>, k: nat, base: nat, main: bool) {
    k <= |hs| && LoadedPages(ps, ps', hs, k, base, main) && LoadedBytes(bs, bs', file, hs, k, base, main)
  }

  ghost predicate Lost(ps: map<nat, bool>, hs: seq<Header>, k: nat, base: nat, main: bool, a: nat)
    requires k <= |hs|
  {
    a / PAGE !in ps && !Touched(hs, k, base, main, a / PAGE)
  }

  /** The header overruns the pages mapped before it and by itself. */
  ghost predicate OverrunsAt(file: seq<byte>, hs: seq<Header>, i: nat, base: nat, main: bool, ps: map<nat, bool>)
    requires i < |hs|
  {
    exists a :: Covers(file, hs[i], base, main, a) && Lost(ps, hs, i + 1, base, main, a)
  }

  ghost predicate Fine(file: seq<byte>, hs: seq<Header>, i: nat, base: nat, main: bool, ps: map<nat, bool>)
    requires i < |hs|
  {
    !Refused(hs[i], base, main) && !OverrunsAt(file, hs, i, base, main, ps)
  }

  /** Header `i` is the first that is not fine, and `r` says why. */
  ghost predicate EndsAt(file: seq<byte>, hs: seq<Header>, i: nat, base: nat, main: bool, ps: map<nat, bool>,
                         r: Outcome)
    requires i < |hs|
  {
    && (forall j :: 0 <= j < i ==> Fine(file, hs, j, base, main, ps))
    && !Fine(file, hs, i, base, main, ps)
    && r == if Refused(hs[i], base, main) then Refusal else Overrun
  }

  lemma HeaderEnds(file: seq<byte>, hs: seq<Header>, i: nat, base: nat, main: bool, ps: map<nat, bool>, r: Outcome)
    requires i < |hs| && forall j :: 0 <= j < i ==> Fine(file, hs, j, base, main, ps)
    requires r == if Refused(hs[i], base, main) then Refusal
                  else if OverrunsAt(file, hs, i, base, main, ps) then Overrun
                  else Done
    ensures r == Done <==> Fine(file, hs, i, base, main, ps)
    ensures r != Done ==> EndsAt(file, hs, i, base, main, ps, r)
  {
    hide Refused, OverrunsAt;
  }

  /** A file with p_filesz at most p_memsz everywhere overruns nothing. */
  lemma NoOverrun(file: seq<byte>, hs: seq<Header>, i: nat, base: nat, main: bool, ps: map<nat, bool>)
    requires i < |hs| && (Loads(hs[i], main) ==> hs[i].filesz <= hs[i].memsz)
    ensures !OverrunsAt(file, hs, i, base, main, ps)
  {
    forall a: nat | Covers(file, hs[i], base, main, a) ensures !Lost(ps, hs, i + 1, base, main, a) {
      assert Touches(hs[i], base, main, a / PAGE);
    }
  }

  lemma TouchedNext(hs: seq<Header>, k: nat, base: nat, main: bool, p: nat)
    requires k < |hs|
    ensures Touched(hs, k + 1, base, main, p) <==> Touched(hs, k, base, main, p) || Touches(hs[k], base, main, p)
    ensures TouchedToWrite(hs, k + 1, base, main, p) <==>
      TouchedToWrite(hs, k, base, main, p) || (Touches(hs[k], base, main, p) && Writable(hs[k]))
    ensures TouchedToWrite(hs, k, base, main, p) ==> Touched(hs, k, base, main, p)
  {
    hide Touches, Writable;
  }

  lemma OverrunsThere(bs: map<nat, byte>, ps: map<nat, bool>, bs1: map<nat, byte>, ps1: map<nat, bool>,
                      file: seq<byte>, hs: seq<Header>, i: nat, base: nat, main: bool)
    requires i < |hs| && Loaded(bs, ps, bs1, ps1, file, hs, i, base, main)
    ensures Overruns(file, hs[i], base, main, ps1) <==> OverrunsAt(file, hs, i, base, main, ps)
  {
    hide Covers, Touches, LoadedBytes;
    forall a: nat ensures Missing(ps1, hs[i], base, main, a) <==> Lost(ps, hs, i + 1, base, main, a) {
      TouchedNext(hs, i, base, main, a / PAGE);
    }
  }

  lemma NothingLoaded(bs: map<nat, byte>, ps: map<nat, bool>, file: seq<byte>, hs: seq<Header>, base: nat, main: bool)
    ensures Loaded(bs, ps, bs, ps, file, hs, 0, base, main)
  {
  }

  lemma BytesNext(bs: map<nat, byte>, bs1: map<nat, byte>, bs': map<nat, byte>, file: seq<byte>, hs: seq<Header>,
                  k: nat, base: nat, main: bool)
    requires k < |hs| && SegmentBytes(bs1, bs', file, hs[k], base, main)
    requires LoadedBytes(bs, bs1, file, hs, k, base, main)
    ensures LoadedBytes(bs, bs', file, hs, k + 1, base, main)
  {
    hide Covers, ByteOf;
    forall a: nat, j: nat | LastOver(file, hs, k + 1, base, main, a, j)
      ensures a in bs' && bs'[a] == ByteOf(file, hs[j], base, a)
    {
      if j < k {
        assert LastOver(file, hs, k, base, main, a, j) && !Covers(file, hs[k], base, main, a);
        assert bs1[a] == ByteOf(file, hs[j], base, a);
      } else {
        assert j == k && Covers(file, hs[k], base, main, a);
      }
    }
    forall a: nat | a in bs && Untouched(file, hs, k + 1, base, main, a) ensures a in bs' && bs'[a] == bs[a] {
      assert Untouched(file, hs, k, base, main, a) && !Covers(file, hs[k], base, main, a);
    }
  }

  lemma PagesNext(ps: map<nat, bool>, ps1: map<nat, bool>, ps': map<nat, bool>, hs: seq<Header>, k: nat, base: nat,
                  main: bool)
    requires k < |hs| && SegmentPages(ps1, ps', hs[k], base, main)
    requires LoadedPages(ps, ps1, hs, k, base, main)
    ensures LoadedPages(ps, ps', hs, k + 1, base, main)
  {
    hide Touches, Writable;
    forall p: nat
      ensures Touched(hs, k + 1, base, main, p) <==> Touched(hs, k, base, main, p) || Touches(hs[k], base, main, p)
      ensures TouchedToWrite(hs, k + 1, base, main, p) <==>
        TouchedToWrite(hs, k, base, main, p) || (Touches(hs[k], base, main, p) && Writable(hs[k]))
      ensures TouchedToWrite(hs, k, base, main, p) ==> Touched(hs, k, base, main, p)
    {
      TouchedNext(hs, k, base, main, p);
    }
  }

  lemma LoadedNext(bs: map<nat, byte>, ps: map<nat, bool>, bs1: map<nat, byte>, ps1: map<nat, bool>,
                   bs': map<nat, byte>, ps': map<nat, bool>, file: seq<byte>, hs: seq<Header>, k: nat, base: nat,
                   main: bool)
    requires k < |hs| && Loaded(bs, ps, bs1, ps1, file, hs, k, base, main)
    requires SegmentDone(bs1, ps1, bs', ps', file, hs[k], base, main)
    ensures Loaded(bs, ps, bs', ps', file, hs, k + 1, base, main)
  {
    hide LoadedPages, LoadedBytes, SegmentPages, SegmentBytes;
    PagesNext(ps, ps1, ps', hs, k, base, main);
    BytesNext(bs, bs1, bs', file, hs, k, base, main);
  }

  lemma PagesOf(low: nat, high: nat)
    requires FIRST <= low <= high
    ensures low / PAGE <= (high - 1) / PAGE + 1
  {
  }

  lemma InPages(low: nat, high: nat, bytes: map<nat, byte>, ps: map<nat, bool>, pages: map<nat, bool>, w: bool)
    requires Backed(bytes, pages)
    requires FIRST <= low <= high && PagesAfter(ps, pages, low / PAGE, (high - 1) / PAGE + 1, w)
    ensures forall a :: low <= a < high ==> a in bytes
  {
    forall a | low <= a < high ensures a in bytes {
      assert InRange(a / PAGE, low / PAGE, (high - 1) / PAGE + 1);
    }
  }

  /** fs_read finds every byte in place exactly when the segment overruns nothing. */
  lemma OverrunsExactly(bytes: map<nat, byte>, ps: map<nat, bool>, pages: map<nat, bool>,
                        file: seq<byte>, h: Header, base: nat, main: bool, data: seq<byte>)
    requires Loads(h, main) && data == PlainRead(file, h.offset, h.filesz) && Backed(bytes, pages)
    requires SegmentPages(ps, pages, h, base, main)
    requires forall a :: Start(h, base) <= a < Start(h, base) + h.memsz ==> a in bytes
    ensures Overruns(file, h, base, main, ps) <==>
      !forall a :: Start(h, base) <= a < Start(h, base) + |data| ==> a in bytes
  {
    hide Start, Loads, PlainRead, Touches;
    forall a: nat ensures Missing(ps, h, base, main, a) <==> a !in bytes {
    }
    if x :| Start(h, base) <= x < Start(h, base) + |data| && x !in bytes {
      assert Covers(file, h, base, main, x) && Missing(ps, h, base, main, x);
    }
  }

  lemma TouchedPages(ps: map<nat, bool>, ps': map<nat, bool>, h: Header, base: nat, main: bool)
    requires Loads(h, main) && Start(h, base) >= FIRST
    requires PagesAfter(ps, ps', Start(h, base) / PAGE, (Start(h, base) + h.memsz - 1) / PAGE + 1, Writable(h))
    ensures SegmentPages(ps, ps', h, base, main)
  {
    hide Start;
    assert forall p: nat :: InRange(p, Start(h, base) / PAGE, (Start(h, base) + h.memsz - 1) / PAGE + 1) <==>
      Touches(h, base, main, p);
  }

  lemma SegmentMeans(bs: map<nat, byte>, bs1: map<nat, byte>, bs': map<nat, byte>, file: seq<byte>, h: Header,
                     base: nat, main: bool, data: seq<byte>)
    requires Loads(h, main) && data == PlainRead(file, h.offset, h.filesz)
    requires BytesKept(bs, bs1)
    requires bs1.Keys == bs'.Keys
    requires forall a :: Start(h, base) <= a < Start(h, base) + h.memsz ==> a in bs1
    requires forall a :: Start(h, base) <= a < Start(h, base) + |data| ==> a in bs1
    requires forall a :: a in bs' ==>
      bs'[a] == if Start(h, base) <= a < Start(h, base) + |data| then data[a - Start(h, base)]
                else if Start(h, base) <= a < Start(h, base) + h.memsz then 0 else bs1[a]
    ensures SegmentBytes(bs, bs', file, h, base, main)
  {
  }

  lemma SameKeys(bytes: map<nat, byte>, pages: map<nat, bool>, a: nat, b: byte)
    requires Backed(bytes, pages) && a in bytes
    ensures Backed(bytes[a := b], pages)
  {
  }

  lemma OldPage(bytes: map<nat, byte>, pages: map<nat, bool>, p: nat, w: bool)
    requires Backed(bytes, pages) && p in pages
    ensures Backed(bytes, pages[p := w])
  {
  }

  lemma NewPage(bytes: map<nat, byte>, pages: map<nat, bool>, p: nat, w: bool, page: map<nat, byte>)
    requires Backed(bytes, pages) && p !in pages && forall a: nat :: a in page <==> a / PAGE == p
    ensures Backed(bytes + page, pages[p := w]) && BytesKept(bytes, bytes + page)
  {
  }

  class Memory {
    /** The bytes of the mapped pages, and the pages with their right to be written. */
    var bytes: map<nat, byte>
    var pages: map<nat, bool>

    ghost predicate Valid()
      reads this
    {
      Backed(bytes, pages)
    }

    method MapPage(p: nat, w: bool, junk: nat -> byte)
      requires Valid()
      modifies this
      ensures Valid() && PagesAfter(old(pages), pages, p, p + 1, w) && BytesKept(old(bytes), bytes)
    {
      hide Backed, PageBytes;
      if p in pages {
        OldPage(bytes, pages, p, pages[p] || w);
        pages := pages[p := pages[p] || w];
      } else {
        var page := PageBytes(p, junk);
        NewPage(bytes, pages, p, w, page);
        pages := pages[p := w];
        bytes := bytes + page;
      }
    }

    /** map_range: pages already there keep their bytes and gain the right; new ones hold anything. */
    method MapRange(from: nat, to: nat, w: bool, junk: nat -> byte)
      requires Valid() && from <= to
      modifies this
      ensures Valid() && PagesAfter(old(pages), pages, from, to, w) && BytesKept(old(bytes), bytes)
    {
      ghost var bs, ps := bytes, pages;
      for p := from to to
        invariant Valid() && PagesAfter(ps, pages, from, p, w) && BytesKept(bs, bytes)
      {
        MapPage(p, w, junk);
      }
    }

    method StoreByte(a: nat, b: byte)
      requires Valid() && a in bytes
      modifies this`bytes
      ensures Valid() && bytes == old(bytes)[a := b]
    {
      hide Backed;
      SameKeys(bytes, pages, a, b);
      bytes := bytes[a := b];
    }

    /** memset(low, 0, n). */
    method Clear(low: nat, n: nat)
      requires Valid() && forall a :: low <= a < low + n ==> a in bytes
      modifies this`bytes
      ensures Valid() && bytes.Keys == old(bytes.Keys)
      ensures forall a :: a in bytes ==> bytes[a] == if low <= a < low + n then 0 else old(bytes)[a]
    {
      hide Backed;
      for k := 0 to n
        invariant Valid() && bytes.Keys == old(bytes.Keys)
        invariant forall a :: a in bytes ==> bytes[a] == if low <= a < low + k then 0 else old(bytes)[a]
      {
        StoreByte(low + k, 0);
      }
    }

    /** fs_read(f, low, ...): the bytes of the file, up to the first that has no place. */
    method Fill(low: nat, data: seq<byte>) returns (ok: bool)
      requires Valid()
      modifies this`bytes
      ensures Valid() && bytes.Keys == old(bytes.Keys)
      ensures ok <==> forall a :: low <= a < low + |data| ==> a in bytes
      ensures ok ==> forall a :: a in bytes ==>
        bytes[a] == if low <= a < low + |data| then data[a - low] else old(bytes)[a]
    {
      hide Backed;
      for k := 0 to |data|
        invariant Valid() && bytes.Keys == old(bytes.Keys)
        invariant forall a :: low <= a < low + k ==> a in bytes
        invariant forall a :: a in bytes ==> bytes[a] == if low <= a < low + k then data[a - low] else old(bytes)[a]
      {
        if low + k !in bytes {
          return false;
        }
        StoreByte(low + k, data[k]);
      }
      ok := true;
    }

    method FillSegment(file: seq<byte>, h: Header, base: nat, main: bool, junk: nat -> byte) returns (ok: bool)
      requires Valid() && Loads(h, main) && Start(h, base) >= FIRST
      modifies this
      ensures Valid() && (ok <==> !Overruns(file, h, base, main, old(pages)))
      ensures ok ==> SegmentDone(old(bytes), old(pages), bytes, pages, file, h, base, main)
    {
      hide Start, Writable, PagesAfter, PlainRead, Backed, SegmentPages, SegmentBytes, BytesKept, Loads, Overruns,
        Extent;
      var low, high := Start(h, base), Start(h, base) + h.memsz;
      ghost var bs, ps := bytes, pages;
      PagesOf(low, high);
      MapRange(low / PAGE, (high - 1) / PAGE + 1, Writable(h), junk);
      ghost var bs1 := bytes;
      TouchedPages(ps, pages, h, base, main);
      InPages(low, high, bytes, ps, pages, Writable(h));
      Clear(low, h.memsz);
      var data := PlainRead(file, h.offset, h.filesz);
      ok := Fill(low, data);
      OverrunsExactly(bytes, ps, pages, file, h, base, main, data);
      if ok {
        SegmentMeans(bs, bs1, bytes, file, h, base, main, data);
      }
    }

    /** map_segment, for a header load_elf has made ready. */
    method MapSegment(file: seq<byte>, h: Header, base: nat, main: bool, junk: nat -> byte) returns (r: Outcome)
      requires Valid()
      modifies this
      ensures Valid()
      ensures r == Refusal <==> OutOfBounds(h, base, main)
      ensures r == Overrun <==> !OutOfBounds(h, base, main) && Overruns(file, h, base, main, old(pages))
      ensures r == Done ==> SegmentDone(old(bytes), old(pages), bytes, pages, file, h, base, main)
      ensures r == Refusal ==> bytes == old(bytes) && pages == old(pages)
    {
      if !Loads(h, main) {
        NotLoaded(bytes, pages, file, h, base, main);
        return Done;
      }
      hide SegmentDone, Start, Overruns;
      if Start(h, base) < FIRST || Start(h, base) + h.memsz > END {
        return Refusal;
      }
      var ok := FillSegment(file, h, base, main, junk);
      r := if ok then Done else Overrun;
    }

    /** The loop of load_elf over its program headers. It ends at the first header that is refused or
        overruns the pages mapped up to then; otherwise everything is loaded. */
    method LoadHeaders(file: seq<byte>, phoff: nat, n: nat, base: nat, main: bool,
                       junk: nat -> byte) returns (r: Outcome)
      requires Valid()
      modifies this
      ensures Valid()
      ensures r == Done <==> forall i :: 0 <= i < n ==> Fine(file, Headers(file, phoff, n), i, base, main, old(pages))
      ensures r == Done ==> Loaded(old(bytes), old(pages), bytes, pages, file, Headers(file, phoff, n), n, base, main)
      ensures r != Done ==>
        exists i :: 0 <= i < n && EndsAt(file, Headers(file, phoff, n), i, base, main, old(pages), r)
    {
      hide Refused, Loaded, ReadHeader, Backed, SegmentDone, Loads, Start, Overruns, OverrunsAt, OutOfBounds, Fine,
        EndsAt;
      ghost var hs := Headers(file, phoff, n);
      ghost var bs, ps := bytes, pages;
      var offset := phoff % U32;
      NothingLoaded(bs, ps, file, hs, base, main);
      for i := 0 to n
        invariant Valid() && Loaded(bs, ps, bytes, pages, file, hs, i, base, main)
        invariant offset == (phoff + 32 * i) % U32
        invariant forall j :: 0 <= j < i ==> Fine(file, hs, j, base, main, ps)
      {
        var h := ReadHeader(file, offset);
        assert h == hs[i];
        ghost var bs1, ps1 := bytes, pages;
        RefusedWhen(h, base, main);
        OverrunsThere(bs, ps, bs1, ps1, file, hs, i, base, main);
        if main && h.kind == 3 && h.filesz >= INTERP {
          HeaderEnds(file, hs, i, base, main, ps, Refusal);
          return Refusal;
        }
        r := MapSegment(file, h, base, main, junk);
        HeaderEnds(file, hs, i, base, main, ps, r);
        if r != Done {
          return;
        }
        LoadedNext(bs, ps, bs1, ps1, bytes, pages, file, hs, i, base, main);
        NextOffset(phoff, i);
        offset := (offset + 32) % U32;
      }
      r := Done;
    }
  }

  // ---- what the program finds ----

  /** Every segment has its bytes: those of the file, then zeros. */
  ghost predicate AllImages(bs: map<nat, byte>, file: seq<byte>, hs: seq<Header>, base: nat, main: bool) {
    forall i, a: nat :: 0 <= i < |hs| && Covers(file, hs[i], base, main, a) ==>
      a in bs && bs[a] == ByteOf(file, hs[i], base, a)
  }

  /** Any two headers want the same bytes where both are. */
  ghost predicate Agree(file: seq<byte>, hs: seq<Header>, base: nat, main: bool) {
    forall i, j, a: nat ::
      0 <= i < |hs| && 0 <= j < |hs| && Covers(file, hs[i], base, main, a) && Covers(file, hs[j], base, main, a) ==>
      ByteOf(file, hs[i], base, a) == ByteOf(file, hs[j], base, a)
  }

  lemma {:induction false} LastExists(file: seq<byte>, hs: seq<Header>, k: nat, base: nat, main: bool, a: nat,
                                      i: nat) returns (j: nat)
    requires i < k <= |hs| && Covers(file, hs[i], base, main, a)
    ensures LastOver(file, hs, k, base, main, a, j)
  {
    hide Covers;
    if Covers(file, hs[k - 1], base, main, a) {
      j := k - 1;
    } else {
      j := LastExists(file, hs, k - 1, base, main, a, i);
    }
  }

  /** Loading in order gives every segment its bytes exactly when the headers agree: a header loaded
      again inside another then disturbs nothing. */
  lemma ImagesExactly(bs: map<nat, byte>, ps: map<nat, bool>, bs': map<nat, byte>, ps': map<nat, bool>,
                      file: seq<byte>, hs: seq<Header>, base: nat, main: bool)
    requires Loaded(bs, ps, bs', ps', file, hs, |hs|, base, main)
    ensures AllImages(bs', file, hs, base, main) <==> Agree(file, hs, base, main)
  {
    hide Covers, ByteOf, Touched, TouchedToWrite;
    if Agree(file, hs, base, main) {
      forall i, a: nat | 0 <= i < |hs| && Covers(file, hs[i], base, main, a)
        ensures a in bs' && bs'[a] == ByteOf(file, hs[i], base, a)
      {
        var j := LastExists(file, hs, |hs|, base, main, a, i);
        assert Covers(file, hs[j], base, main, a);
      }
    }
    if AllImages(bs', file, hs, base, main) {
      forall i, j, a: nat |
        0 <= i < |hs| && 0 <= j < |hs| && Covers(file, hs[i], base, main, a) && Covers(file, hs[j], base, main, a)
        ensures ByteOf(file, hs[i], base, a) == ByteOf(file, hs[j], base, a)
      {
        assert bs'[a] == ByteOf(file, hs[i], base, a);
      }
    }
  }

  /** `h` shows a part of the file that `g` shows too, at the same place. */
  predicate Inside(h: Header, g: Header, base: nat) {
    && Start(g, base) <= Start(h, base) && Start(h, base) + h.memsz <= Start(g, base) + g.filesz
    && h.memsz == h.filesz && h.offset - g.offset == Start(h, base) - Start(g, base)
  }

  predicate Apart(file: seq<byte>, h: Header, g: Header, base: nat) {
    Start(h, base) + Extent(file, h) <= Start(g, base) || Start(g, base) + Extent(file, g) <= Start(h, base)
  }

  /** The usual layout: segments apart, and headers like PT_PHDR inside one of them. */
  lemma UsualAgree(file: seq<byte>, hs: seq<Header>, base: nat, main: bool)
    requires forall i, j :: 0 <= i < |hs| && 0 <= j < |hs| && i != j && Loads(hs[i], main) && Loads(hs[j], main) ==>
      Apart(file, hs[i], hs[j], base) || Inside(hs[i], hs[j], base) || Inside(hs[j], hs[i], base)
    ensures Agree(file, hs, base, main)
  {
    hide Start;
  }

  // ---- the same in the terms of the gABI ----

  const PT_LOAD := 1
  const PT_DYNAMIC := 2
  const PT_INTERP := 3
  const PT_PHDR := 6
  const PF_W: bv8 := 2

  /** Elf32_Phdr. */
  datatype Phdr = Phdr(p_type: nat, p_offset: nat, p_vaddr: nat, p_paddr: nat,
                       p_filesz: nat, p_memsz: nat, p_flags: nat, p_align: nat)

  predicate PhdrOk(h: Phdr) {
    && h.p_type < U32 && h.p_offset < U32 && h.p_vaddr < U32 && h.p_paddr < U32
    && h.p_filesz < U32 && h.p_memsz < U32 && h.p_flags < U32 && h.p_align < U32
  }

  /** The four bytes of a word, the lowest first. */
  predicate WordBytes(b: seq<byte>, at: nat, x: nat)
    requires at + 4 <= |b|
  {
    && b[at] == x % 256 && b[at + 1] == x / 0x100 % 256
    && b[at + 2] == x / 0x1_0000 % 256 && b[at + 3] == x / 0x100_0000 % 256
  }

  /** The header stands in the file at offset `at`, in the order of the gABI. */
  predicate PhdrAt(file: seq<byte>, at: nat, h: Phdr) {
    && at + 32 <= |file|
    && WordBytes(file, at, h.p_type) && WordBytes(file, at + 4, h.p_offset)
    && WordBytes(file, at + 8, h.p_vaddr) && WordBytes(file, at + 12, h.p_paddr)
    && WordBytes(file, at + 16, h.p_filesz) && WordBytes(file, at + 20, h.p_memsz)
    && WordBytes(file, at + 24, h.p_flags) && WordBytes(file, at + 28, h.p_align)
  }

  lemma WordRead(b: seq<byte>, at: nat, x: nat)
    requires at + 4 <= |b| && x < U32 && WordBytes(b, at, x)
    ensures Word(b, at) == x
  {
    assert x / 0x1_0000 == x / 0x100 / 0x100 && x / 0x100_0000 == x / 0x100 / 0x100 / 0x100;
  }

  lemma ShiftedWord(file: seq<byte>, b: seq<byte>, at: nat, k: nat, x: nat)
    requires at + 32 <= |file| && b == file[at..at + 32] && k + 4 <= 32 && x < U32 && WordBytes(file, at + k, x)
    ensures Word(b, k) == x
  {
    WordRead(b, k, x);
  }

  /** Reading a header gives back the fields it was laid out from. */
  lemma HeaderRead(file: seq<byte>, at: nat, h: Phdr)
    requires PhdrOk(h) && PhdrAt(file, at, h)
    ensures ReadHeader(file, at) ==
      Header(kind := h.p_type, offset := h.p_offset, vaddr := h.p_vaddr,
             filesz := h.p_filesz, memsz := h.p_memsz, flags := h.p_flags)
  {
    var b := HeaderBytes(file, at);
    assert b == file[at..at + 32];
    hide Word, HeaderBytes;
    ShiftedWord(file, b, at, 0, h.p_type);
    ShiftedWord(file, b, at, 4, h.p_offset);
    ShiftedWord(file, b, at, 8, h.p_vaddr);
    ShiftedWord(file, b, at, 16, h.p_filesz);
    ShiftedWord(file, b, at, 20, h.p_memsz);
    ShiftedWord(file, b, at, 24, h.p_flags);
  }

  /** The headers stand one behind the other from offset `at` on. */
  predicate TableAt(file: seq<byte>, at: nat, hs: seq<Phdr>)
    decreases |hs|
  {
    hs == [] || (PhdrAt(file, at, hs[0]) && TableAt(file, at + 32, hs[1..]))
  }

  lemma {:induction false} TableEntry(file: seq<byte>, at: nat, hs: seq<Phdr>, i: nat)
    requires TableAt(file, at, hs) && i < |hs|
    ensures PhdrAt(file, at + 32 * i, hs[i])
    decreases i
  {
    if i > 0 {
      TableEntry(file, at + 32, hs[1..], i - 1);
    }
  }

  /** Header `i` of a table is read from its own place. */
  lemma TableRead(file: seq<byte>, phoff: nat, hs: seq<Phdr>, i: nat)
    requires TableAt(file, phoff, hs) && phoff + 32 * |hs| < U32 && i < |hs| && PhdrOk(hs[i])
    ensures Headers(file, phoff, |hs|)[i] ==
      Header(kind := hs[i].p_type, offset := hs[i].p_offset, vaddr := hs[i].p_vaddr,
             filesz := hs[i].p_filesz, memsz := hs[i].p_memsz, flags := hs[i].p_flags)
  {
    hide PhdrAt, ReadHeader;
    TableEntry(file, phoff, hs, i);
    HeaderRead(file, phoff + 32 * i, hs[i]);
  }

  /** A byte is the sum of its bits. */
  lemma SecondBit(f: nat)
    requires f < 256
    ensures f / 2 % 2 == 1 <==> (f as bv8) & PF_W != 0
  {
  }

  lemma LowByte(f: nat)
    ensures f % 256 / 2 % 2 == f / 2 % 2
  {
    assert f == 2 * (128 * (f / 256)) + f % 256;
    assert f / 2 == 128 * (f / 256) + f % 256 / 2;
  }

  /** The right to write is PF_W, the second bit of the lowest byte of p_flags. */
  lemma FlagsMean(h: Header)
    ensures Writable(h) <==> ((h.flags % 256) as bv8) & PF_W != 0
  {
    SecondBit(h.flags % 256);
    LowByte(h.flags);
  }

  /** The headers that are loaded, and where. */
  lemma LoadedMeans(h: Header, base: nat, main: bool)
    ensures Loads(h, main) <==>
      h.kind == PT_LOAD || h.kind == PT_DYNAMIC || h.kind == PT_PHDR || (main && h.kind == PT_INTERP)
    ensures h.vaddr + base < U32 ==> Start(h, base) == h.vaddr + base
    ensures U32 <= h.vaddr + base < 2 * U32 ==> Start(h, base) == h.vaddr + base - U32
    ensures OutOfBounds(h, base, main) <==>
      Loads(h, main) && (Start(h, base) < 0x10_0000 || Start(h, base) + h.memsz > 0xc000_0000)
    ensures Refused(h, base, main) <==>
      (main && h.kind == PT_INTERP && h.filesz >= 256) || OutOfBounds(h, base, main)
  {
  }

  /** Address `a` is one of the segment's, on page `p`. */
  predicate OnPage(h: Header, base: nat, p: nat, a: nat) {
    Start(h, base) <= a < Start(h, base) + h.memsz && a / 4096 == p
  }

  /** Header `h` asks for page `p`. An empty segment asks for the page it starts in, unless it starts it. */
  ghost predicate Asks(h: Header, base: nat, main: bool, p: nat) {
    && Loads(h, main)
    && ((exists a: nat :: OnPage(h, base, p, a)) ||
        (h.memsz == 0 && Start(h, base) % 4096 != 0 && Start(h, base) / 4096 == p))
  }

  /** A segment touches the pages of its bytes. */
  lemma TouchMeans(h: Header, base: nat, main: bool, p: nat)
    ensures Touches(h, base, main, p) <==> Asks(h, base, main, p)
  {
    hide Start, Loads;
    var s := Start(h, base);
    if 0 < h.memsz && s / PAGE <= p <= (s + h.memsz - 1) / PAGE {
      assert OnPage(h, base, p, if s < p * PAGE then p * PAGE else s);
    }
  }

  /** After loading, the pages are those there were and those of the segments, and a page may be written
      if it could before or one of its segments has PF_W: rights only add up. */
  lemma RightsMean(bs: map<nat, byte>, ps: map<nat, bool>, bs': map<nat, byte>, ps': map<nat, bool>,
                   file: seq<byte>, hs: seq<Header>, base: nat, main: bool, p: nat)
    requires Loaded(bs, ps, bs', ps', file, hs, |hs|, base, main)
    ensures p in ps' <==> p in ps || exists i :: 0 <= i < |hs| && Asks(hs[i], base, main, p)
    ensures p in ps' ==>
      (ps'[p] <==>
        (p in ps && ps[p]) ||
        exists i :: 0 <= i < |hs| && Asks(hs[i], base, main, p) && ((hs[i].flags % 256) as bv8) & PF_W != 0)
  {
    hide Touches, Asks, Writable, LoadedBytes;
    forall i | 0 <= i < |hs|
      ensures Touches(hs[i], base, main, p) <==> Asks(hs[i], base, main, p)
      ensures Writable(hs[i]) <==> ((hs[i].flags % 256) as bv8) & PF_W != 0
    {
      TouchMeans(hs[i], base, main, p);
      FlagsMean(hs[i]);
    }
  }

  /** When every segment has its image: its first p_filesz bytes are those of the file from p_offset on,
      and zeros follow up to p_memsz. */
  lemma ImageMeans(bs: map<nat, byte>, file: seq<byte>, hs: seq<Header>, base: nat, main: bool, i: nat, k: nat)
    requires AllImages(bs, file, hs, base, main) && i < |hs| && Loads(hs[i], main)
    requires hs[i].offset + hs[i].filesz <= |file|
    ensures k < hs[i].filesz ==>
      Start(hs[i], base) + k in bs && bs[Start(hs[i], base) + k] == file[hs[i].offset + k]
    ensures hs[i].filesz <= k < hs[i].memsz ==>
      Start(hs[i], base) + k in bs && bs[Start(hs[i], base) + k] == 0
  {
    hide Start, Loads;
    var a := Start(hs[i], base) + k;
    assert |PlainRead(file, hs[i].offset, hs[i].filesz)| == hs[i].filesz;
    if k < hs[i].filesz || k < hs[i].memsz {
      assert Covers(file, hs[i], base, main, a);
    }
  }
}
