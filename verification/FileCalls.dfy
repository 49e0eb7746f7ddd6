/** The file calls of kernel/sys_fs.c over the table of descriptors, against plain byte sequences. */
module FileCalls {
  import opened Integers
  import opened Bytes
  import opened BundleRows
  import opened FileStore

  const FDS := 1024

  /** struct fd; a null file pointer is a closed descriptor. */
  datatype Fd = Closed | Open(file: nat, offset: nat)

  /** A call of the program. `ok` is what the check of its buffer says. */
  datatype Call =
    | Read(fd: nat, count: nat, ok: bool)
    | Write(fd: nat, buf: seq<byte>, ok: bool)
    | Seek(fd: nat, high: nat, low: nat, whence: nat, ok: bool)
    | OpenFile(path: Option<seq<byte>>, flags: Flags, modeOk: bool)
    | Close(fd: nat)

  datatype Answer = Done(n: nat) | Got(bytes: seq<byte>) | Error(e: Errno)

  /** The files as sequences, and the descriptors. */
  datatype View = View(files: seq<Plain>, fds: seq<Fd>)

  predicate CallOk(c: Call) {
    match c
    case Read(fd, count, _) => fd < U32 && count < U32
    case Write(fd, buf, _) => fd < U32 && |buf| < U32
    // llseek does not look at the bounds of the table
    case Seek(fd, high, low, whence, _) => fd < FDS && high < U32 && low < U32 && whence < U32
    case OpenFile(path, _, _) => path.Some? ==> 0 !in path.value
    case Close(fd) => fd < U32
  }

  predicate ViewOk(v: View) {
    && |v.fds| == FDS && (forall i :: 0 <= i < |v.files| ==> PlainOk(v.files[i]))
    && forall i :: 0 <= i < FDS && v.fds[i].Open? ==> v.fds[i].file < |v.files| && v.fds[i].offset < U32
  }

  /** The first closed descriptor. */
  function Free(fds: seq<Fd>): (i: nat)
    ensures i <= |fds| && (i < |fds| ==> fds[i].Closed?) && forall j :: 0 <= j < i ==> !fds[j].Closed?
  {
    if fds == [] || fds[0].Closed? then 0 else 1 + Free(fds[1..])
  }

  lemma FreeIs(fds: seq<Fd>, i: nat)
    requires i <= |fds| && (i < |fds| ==> fds[i].Closed?) && forall j :: 0 <= j < i ==> !fds[j].Closed?
    ensures Free(fds) == i
  {
  }

  /** An unsigned long long as a signed one. */
  function Signed(x: nat): int {
    if x < U64 / 2 then x else x - U64
  }

  /** What llseek answers when it counts from `base`: the offset as a number with a sign. */
  function SeekTo(base: nat, high: nat, low: nat): (a: Answer)
    requires base < U32 && high < U32 && low < U32
    ensures a.Done? ==> a.n < U32
  {
    var to := Signed(high * U32 + low) + base;
    if 0 <= to < U32 then Done(to)
    else if to < 0 || to >= U64 / 2 then Error(EINVAL) else Error(ENOSYS)
  }

  predicate SameKind(f: Plain, g: Plain) {
    g.name == f.name && g.access == f.access && g.room == f.room && (g.bytes.Some? <==> f.bytes.Some?)
  }

  /** No call makes or removes a file, or changes its name, its rights or its room. */
  predicate SameShape(fs: seq<Plain>, gs: seq<Plain>) {
    && |fs| == |gs|
    && forall i :: 0 <= i < |fs| ==> SameKind(fs[i], gs[i])
  }

  /** What a call does to the files as sequences. */
  function Step(v: View, c: Call): (r: (View, Answer))
    requires ViewOk(v) && CallOk(c)
    ensures ViewOk(r.0) && SameShape(v.files, r.0.files)
  {
    hide Find, Strip, Free, PlainRead, PlainOpen;
    match c
    case Read(fd, count, ok) =>
      if !ok then (v, Error(EFAULT))
      else if fd >= FDS || v.fds[fd].Closed? then (v, Error(EBADF))
      else
        var f := v.files[v.fds[fd].file];
        if f.bytes.None? then (v, Error(ERESTART))
        else
          var out := PlainRead(f.bytes.value, v.fds[fd].offset, count);
          (v.(fds := v.fds[fd := v.fds[fd].(offset := (v.fds[fd].offset + |out|) % U32)]), Got(out))
    case Write(fd, buf, ok) =>
      if !ok then (v, Error(EFAULT))
      else if fd >= FDS || v.fds[fd].Closed? then (v, Error(EBADF))
      else
        var i, at := v.fds[fd].file, v.fds[fd].offset;
        var f := v.files[i];
        if f.bytes.None? then (v, Error(ERESTART))
        else
          var k := PlainCount(f.room, at, |buf|);
          var w := PlainWrite(f.bytes.value, f.room, at, buf);
          WriteThenRead(f.bytes.value, f.room, at, buf);
          (View(v.files[i := f.(bytes := Some(w), sz := |w|)], v.fds[fd := v.fds[fd].(offset := (at + k) % U32)]),
           if k == |buf| then Done(k) else Error(ENOSYS))
    case Seek(fd, high, low, whence, ok) =>
      if whence > 2 then (v, Error(EINVAL))
      else if v.fds[fd].Closed? then (v, Error(EBADF))
      else if !ok then (v, Error(EFAULT))
      else
        var f := v.files[v.fds[fd].file];
        if whence == 2 && f.bytes.None? then (v, Error(ERESTART))
        else
          var a := SeekTo(if whence == 0 then 0 else if whence == 1 then v.fds[fd].offset else f.sz, high, low);
          (if a.Done? then v.(fds := v.fds[fd := v.fds[fd].(offset := a.n)]) else v, a)
    case OpenFile(path, flags, modeOk) =>
      var n := Free(v.fds);
      if path.None? then (v, Error(EFAULT))
      else if flags.creat && !modeOk then (v, Error(ENOSYS))
      else if n == FDS then (v, Error(ENFILE))
      else
        (match PlainOpen(v.files, path.value, flags)
         case Failed(e) => (v, Error(e))
         case Opened(i) =>
           var files := if flags.trunc then v.files[i := Truncated(v.files[i])] else v.files;
           (View(files, v.fds[n := Open(i, 0)]), Done(n)))
    case Close(fd) =>
      if fd >= FDS || v.fds[fd].Closed? then (v, Error(EBADF))
      else (v.(fds := v.fds[fd := Closed]), Done(0))
  }

  // ---- what the calls mean, one by one and in a row ----

  /** The descriptor leads to a file. */
  predicate IsOpen(v: View, fd: nat)
    requires ViewOk(v)
  {
    fd < FDS && v.fds[fd].Open?
  }

  /** The bytes of the file behind a descriptor. */
  function Behind(v: View, fd: nat): Option<seq<byte>>
    requires ViewOk(v) && IsOpen(v, fd)
  {
    v.files[v.fds[fd].file].bytes
  }

  /** A read: the errors when due; otherwise bytes from the offset on, which moves behind them. */
  lemma ReadMeans(v: View, fd: nat, count: nat, ok: bool)
    requires ViewOk(v) && CallOk(Read(fd, count, ok))
    ensures var (w, a) := Step(v, Read(fd, count, ok));
      && (a == Error(EFAULT) <==> !ok)
      && (a == Error(EBADF) <==> ok && !IsOpen(v, fd))
      && (a == Error(ERESTART) <==> ok && IsOpen(v, fd) && Behind(v, fd).None?)
      && (a.Got? <==> ok && IsOpen(v, fd) && Behind(v, fd).Some?)
      && (!a.Got? ==> w == v)
      && (a.Got? ==>
            var c, at := Behind(v, fd).value, v.fds[fd].offset;
            && |a.bytes| <= count && (at + |a.bytes| < |c| ==> |a.bytes| == count)
            && (forall i :: 0 <= i < |a.bytes| ==> at + i < |c| && a.bytes[i] == c[at + i])
            && w.files == v.files && w.fds == v.fds[fd := Open(v.fds[fd].file, at + |a.bytes|)])
  {
    if ok && IsOpen(v, fd) && Behind(v, fd).Some? {
      ReadBytes(Behind(v, fd).value, v.fds[fd].offset, count);
      assert PlainOk(v.files[v.fds[fd].file]);
      hide PlainRead;
    }
  }

  /** A read through an open descriptor in the words of `PlainRead`. */
  lemma ReadThrough(v: View, fd: nat, count: nat)
    requires ViewOk(v) && fd < U32 && count < U32 && IsOpen(v, fd) && Behind(v, fd).Some?
    ensures var c, at := Behind(v, fd).value, v.fds[fd].offset;
      var out := PlainRead(c, at, count);
      && at + |out| < U32
      && Step(v, Read(fd, count, true))
         == (View(v.files, v.fds[fd := Open(v.fds[fd].file, at + |out|)]), Got(out))
  {
    ReadBytes(Behind(v, fd).value, v.fds[fd].offset, count);
    assert PlainOk(v.files[v.fds[fd].file]);
    hide PlainRead;
  }

  lemma ReadThroughTwice(v: View, fd: nat, a: nat, b: nat)
    requires ViewOk(v) && fd < U32 && a + b < U32 && IsOpen(v, fd) && Behind(v, fd).Some?
    ensures var (w, x) := Step(v, Read(fd, a, true));
      var (u, y) := Step(w, Read(fd, b, true));
      var (t, z) := Step(v, Read(fd, a + b, true));
      t == u && z.Got? && x.Got? && y.Got? && z.bytes == x.bytes + y.bytes
  {
    hide Step, PlainRead;
    var c, at := Behind(v, fd).value, v.fds[fd].offset;
    ReadThrough(v, fd, a);
    ReadThrough(v, fd, a + b);
    var w := Step(v, Read(fd, a, true)).0;
    assert w.fds[fd] == Open(v.fds[fd].file, at + |PlainRead(c, at, a)|) && Behind(w, fd) == Some(c);
    ReadThrough(w, fd, b);
    ReadsJoin(c, at, a, b);
  }

  /** Two reads in a row through one descriptor are one. */
  lemma ReadTwice(v: View, fd: nat, a: nat, b: nat)
    requires ViewOk(v) && fd < U32 && a + b < U32
    ensures var (w, x) := Step(v, Read(fd, a, true));
      var (u, y) := Step(w, Read(fd, b, true));
      var (t, z) := Step(v, Read(fd, a + b, true));
      t == u && (if z.Got? then x.Got? && y.Got? && z.bytes == x.bytes + y.bytes else x == y == z)
  {
    if IsOpen(v, fd) && Behind(v, fd).Some? {
      ReadThroughTwice(v, fd, a, b);
    } else {
      hide PlainRead;
    }
  }

  /** A closed descriptor answers EBADF to every call, until an open gives it out again; other
      descriptors and the files are not touched. */
  lemma CloseMeans(v: View, fd: nat)
    requires ViewOk(v) && fd < U32
    ensures var (w, a) := Step(v, Close(fd));
      && a == (if IsOpen(v, fd) then Done(0) else Error(EBADF))
      && w.files == v.files && !IsOpen(w, fd) && (forall g: nat :: g < FDS && g != fd ==> w.fds[g] == v.fds[g])
      && Step(w, Close(fd)).1 == Error(EBADF)
      && (forall n: nat :: n < U32 ==> Step(w, Read(fd, n, true)).1 == Error(EBADF))
      && (forall s: seq<byte> :: |s| < U32 ==> Step(w, Write(fd, s, true)).1 == Error(EBADF))
  {
  }

  ghost predicate WroteThere(v: View, w: View, a: Answer, fd: nat, buf: seq<byte>)
    requires ViewOk(v) && ViewOk(w) && IsOpen(v, fd) && Behind(v, fd).Some?
  {
    var i, at, c := v.fds[fd].file, v.fds[fd].offset, Behind(v, fd).value;
    var room := v.files[i].room;
    var k := if room <= at then 0 else if at + |buf| <= room then |buf| else room - at;
    && (if k == |buf| then a == Done(k) else a == Error(ENOSYS))
    && w.fds == v.fds[fd := Open(i, (at + k) % U32)]
    && |w.files| == |v.files| && (forall j :: 0 <= j < |v.files| && j != i ==> w.files[j] == v.files[j])
    && w.files[i].bytes.Some?
    && (room <= at ==> w.files[i].bytes.value == c)
    && (at < room ==>
          var d := w.files[i].bytes.value;
          && |d| == (if |c| < at + k then at + k else |c|)
          && forall j :: 0 <= j < |d| ==>
               d[j] == if at <= j < at + k then buf[j - at] else if j < |c| then c[j] else 0)
  }

  /** A write: the errors when due; otherwise what fits is written at the offset, which moves behind it,
      with zeros in a gap before it; a write that does not fit answers ENOSYS. */
  lemma WriteMeans(v: View, fd: nat, buf: seq<byte>, ok: bool)
    requires ViewOk(v) && CallOk(Write(fd, buf, ok))
    ensures var (w, a) := Step(v, Write(fd, buf, ok));
      && (a == Error(EFAULT) <==> !ok)
      && (a == Error(EBADF) <==> ok && !IsOpen(v, fd))
      && (a == Error(ERESTART) <==> ok && IsOpen(v, fd) && Behind(v, fd).None?)
      && (a.Done? || a == Error(ENOSYS) <==> ok && IsOpen(v, fd) && Behind(v, fd).Some?)
      && (!ok || !IsOpen(v, fd) || Behind(v, fd).None? ==> w == v)
      && (ok && IsOpen(v, fd) && Behind(v, fd).Some? ==> WroteThere(v, w, a, fd, buf))
  {
    if ok && IsOpen(v, fd) && Behind(v, fd).Some? {
      var i, at := v.fds[fd].file, v.fds[fd].offset;
      assert PlainOk(v.files[i]);
      if at < v.files[i].room {
        WriteBytes(v.files[i].bytes.value, v.files[i].room, at, buf);
      }
      hide PlainWrite;
    }
  }

  /** What is written is read back by a seek to where it was and a read. */
  lemma WrittenReadBack(v: View, fd: nat, buf: seq<byte>)
    requires ViewOk(v) && fd < FDS && |buf| < U32 && Step(v, Write(fd, buf, true)).1 == Done(|buf|)
    ensures var at := v.fds[fd].offset;
      var w := Step(v, Write(fd, buf, true)).0;
      var u := Step(w, Seek(fd, 0, at, 0, true)).0;
      Step(u, Read(fd, |buf|, true)).1 == Got(buf)
  {
    var at := v.fds[fd].offset;
    WriteMeans(v, fd, buf, true);
    var w := Step(v, Write(fd, buf, true)).0;
    var u := Step(w, Seek(fd, 0, at, 0, true)).0;
    assert u.files == w.files && u.fds[fd] == Open(v.fds[fd].file, at);
    ReadMeans(u, fd, |buf|, true);
    hide PlainWrite, PlainRead, Step;
    var a := Step(u, Read(fd, |buf|, true)).1;
    assert a.Got?;
    assert |a.bytes| == |buf| && forall i :: 0 <= i < |buf| ==> a.bytes[i] == buf[i];
  }

  /** A seek: counted from the start, the descriptor's offset or the end, with a sign; the errors in the
      order of the source, and the offset left alone with them. */
  lemma SeekCallMeans(v: View, fd: nat, high: nat, low: nat, whence: nat, ok: bool)
    requires ViewOk(v) && CallOk(Seek(fd, high, low, whence, ok))
    ensures var (w, a) := Step(v, Seek(fd, high, low, whence, ok));
      && (2 < whence ==> a == Error(EINVAL))
      && (whence <= 2 && v.fds[fd].Closed? ==> a == Error(EBADF))
      && (whence <= 2 && v.fds[fd].Open? && !ok ==> a == Error(EFAULT))
      && (whence == 2 && v.fds[fd].Open? && ok && Behind(v, fd).None? ==> a == Error(ERESTART))
      && (whence <= 2 && v.fds[fd].Open? && ok && !(whence == 2 && Behind(v, fd).None?) ==>
            var delta := if high < 0x8000_0000 then high * U32 + low else high * U32 + low - U64;
            var to := delta + match whence
              case 0 => 0
              case 1 => v.fds[fd].offset
              case _ => v.files[v.fds[fd].file].sz;
            && (if 0 <= to < U32 then a == Done(to) else a.Error?)
            && (to < 0 || U64 / 2 <= to ==> a == Error(EINVAL))
            && (U32 <= to < U64 / 2 ==> a == Error(ENOSYS))
            && (a.Done? ==> w == v.(fds := v.fds[fd := Open(v.fds[fd].file, a.n)])))
  {
  }

  /** An open: the error fs_open answers, or the lowest closed descriptor, at the start of the file,
      which is empty if O_TRUNC asks for it. */
  lemma OpenCallMeans(v: View, path: Option<seq<byte>>, flags: Flags, modeOk: bool)
    requires ViewOk(v) && CallOk(OpenFile(path, flags, modeOk))
    ensures var (w, a) := Step(v, OpenFile(path, flags, modeOk));
      && (path.None? ==> a == Error(EFAULT))
      && (path.Some? && flags.creat && !modeOk ==> a == Error(ENOSYS))
      && (path.Some? && (flags.creat ==> modeOk) && (forall n :: 0 <= n < FDS ==> v.fds[n].Open?) ==>
            a == Error(ENFILE))
      && (path.Some? && (flags.creat ==> modeOk) && (exists n :: 0 <= n < FDS && v.fds[n].Closed?) ==>
            match PlainOpen(v.files, path.value, flags)
            case Failed(e) => a == Error(e)
            case Opened(_) => a.Done?)
      && (!a.Done? ==> w == v)
      && (a.Done? ==>
            && path.Some? && a.n < FDS && v.fds[a.n].Closed? && (forall n :: 0 <= n < a.n ==> v.fds[n].Open?)
            && PlainOpen(v.files, path.value, flags).Opened?
            && var i := PlainOpen(v.files, path.value, flags).file;
            && w.fds == v.fds[a.n := Open(i, 0)]
            && (!flags.trunc ==> w.files == v.files)
            && (flags.trunc ==>
                  && w.files[i].sz == 0 && (w.files[i].bytes.None? || w.files[i].bytes == Some([]))
                  && forall j :: 0 <= j < |v.files| && j != i ==> w.files[j] == v.files[j]))
  {
    hide PlainOpen;
  }

  function SeenAll(fs: seq<Stored>): (r: seq<Plain>)
    requires forall i :: 0 <= i < |fs| ==> StoredOk(fs[i])
    ensures |r| == |fs| && forall i :: 0 <= i < |fs| ==> r[i] == Seen(fs[i])
  {
    seq(|fs|, i requires 0 <= i < |fs| => Seen(fs[i]))
  }

  ghost predicate AllOk(calls: seq<Call>) {
    forall i :: 0 <= i < |calls| ==> CallOk(calls[i])
  }

  /** A run of calls on plain sequences. */
  ghost function Run(v: View, calls: seq<Call>): (r: (View, seq<Answer>))
    requires ViewOk(v) && AllOk(calls)
    ensures ViewOk(r.0) && SameShape(v.files, r.0.files) && |r.1| == |calls|
    decreases |calls|
  {
    if calls == [] then (v, [])
    else
      var s := Step(v, calls[0]);
      var rest := Run(s.0, calls[1..]);
      (rest.0, [s.1] + rest.1)
  }

  lemma SeenUpdate(fs: seq<Stored>, i: nat, g: Stored)
    requires i < |fs| && StoredOk(g) && forall j :: 0 <= j < |fs| ==> StoredOk(fs[j])
    ensures SeenAll(fs[i := g]) == SeenAll(fs)[i := Seen(g)]
  {
  }

  /** Unsigned addition modulo 2^64 is addition with a sign, as far as it fits. */
  lemma SeekMeans(base: nat, high: nat, low: nat)
    requires base < U32 && high < U32 && low < U32
    ensures
      var offset := (high * U32 + low + base) % U64;
      SeekTo(base, high, low) == if offset >= U64 / 2 then Error(EINVAL)
        else if offset >= U32 then Error(ENOSYS) else Done(offset)
  {
  }

  class Files {
    /** The list of files, in order. */
    var files: seq<Stored>
    const fds: array<Fd>
    const fdsBak: array<Fd>

    ghost predicate FilesOk()
      reads this
    {
      forall i :: 0 <= i < |files| ==> StoredOk(files[i]) && 0 !in files[i].name
    }

    ghost predicate Valid()
      reads this, fds
    {
      && fds.Length == FDS && fdsBak.Length == FDS && fds != fdsBak && FilesOk()
      && forall i :: 0 <= i < FDS && fds[i].Open? ==> fds[i].file < |files| && fds[i].offset < U32
    }

    /** The plain view. */
    ghost function V(): (v: View)
      reads this, fds
      requires Valid()
      ensures ViewOk(v)
    {
      View(SeenAll(files), fds[..])
    }

    constructor (fs: seq<Stored>)
      requires forall i :: 0 <= i < |fs| ==> StoredOk(fs[i]) && 0 !in fs[i].name
      ensures Valid() && files == fs && fresh(fds) && fresh(fdsBak)
      ensures V() == View(SeenAll(fs), seq(FDS, _ => Closed))
    {
      files := fs;
      fds := new Fd[FDS](_ => Closed);
      fdsBak := new Fd[FDS](_ => Closed);
      new;
      assert fds[..] == seq(FDS, _ => Closed);
    }

    method SysRead(fd: nat, count: nat, ok: bool) returns (a: Answer)
      requires Valid() && CallOk(Read(fd, count, ok))
      modifies fds
      ensures Valid() && (V(), a) == Step(old(V()), Read(fd, count, ok))
    {
      if !ok {
        return Error(EFAULT);
      }
      if fd >= FDS || fds[fd].Closed? {
        return Error(EBADF);
      }
      var f := files[fds[fd].file];
      if f.data.None? {
        return Error(ERESTART);
      }
      var out := FsRead(f, fds[fd].offset, count);
      fds[fd] := fds[fd].(offset := (fds[fd].offset + |out|) % U32);
      a := Got(out);
    }

    method SysWrite(fd: nat, buf: seq<byte>, ok: bool) returns (a: Answer)
      requires Valid() && CallOk(Write(fd, buf, ok))
      modifies fds, this`files
      ensures Valid() && (V(), a) == Step(old(V()), Write(fd, buf, ok))
    {
      hide PlainWrite, PlainCount;
      if !ok {
        return Error(EFAULT);
      }
      if fd >= FDS || fds[fd].Closed? {
        return Error(EBADF);
      }
      var i, at := fds[fd].file, fds[fd].offset;
      if files[i].data.None? {
        return Error(ERESTART);
      }
      ghost var was := files;
      var g, k := FsWrite(files[i], at, buf);
      files := files[i := g];
      fds[fd] := fds[fd].(offset := (at + k) % U32);
      SeenUpdate(was, i, g);
      a := if k == |buf| then Done(k) else Error(ENOSYS);
    }

    method SysLlseek(fd: nat, high: nat, low: nat, whence: nat, ok: bool) returns (a: Answer)
      requires Valid() && CallOk(Seek(fd, high, low, whence, ok))
      modifies fds
      ensures Valid() && (V(), a) == Step(old(V()), Seek(fd, high, low, whence, ok))
    {
      if whence > 2 {
        return Error(EINVAL);
      }
      if fds[fd].Closed? {
        return Error(EBADF);
      }
      if !ok {
        return Error(EFAULT);
      }
      var base := 0;
      if whence == 1 {
        base := fds[fd].offset;
      } else if whence == 2 {
        if files[fds[fd].file].data.None? {
          return Error(ERESTART);
        }
        base := files[fds[fd].file].sz;
      }
      var offset := (high * U32 + low + base) % U64;
      SeekMeans(base, high, low);
      if offset >= U64 / 2 {
        return Error(EINVAL);
      }
      if offset >= U32 {
        return Error(ENOSYS);
      }
      fds[fd] := fds[fd].(offset := offset);
      a := Done(offset);
    }

    /** The walk along the list of files. */
    method FindFile(name: seq<byte>) returns (i: nat)
      requires Valid() && 0 !in name
      ensures i == Find(V().files, Strip(name)) <= |files|
    {
      hide StoredOk, Find, Strip;
      var n := StripDots(name);
      i := 0;
      while i < |files|
        invariant i <= |files|
        invariant forall j :: 0 <= j < i ==> files[j].name != n
      {
        var c := StrCmp(files[i].name, n);
        if c == 0 {
          break;
        }
        i := i + 1;
      }
      FindIs(V().files, n, i);
    }

    method FsOpen(name: seq<byte>, fl: Flags) returns (r: Opened)
      requires Valid() && 0 !in name
      modifies this`files
      ensures Valid() && |files| == old(|files|)
      ensures r == PlainOpen(old(V().files), name, fl)
      ensures V() == old(V()).(files := V().files)
      ensures V().files == match r
        case Opened(i) => if fl.trunc then old(V().files)[i := Truncated(old(V().files)[i])] else old(V().files)
        case Failed(_) => old(V().files)
    {
      hide Find, Strip;
      if fl.other {
        return Failed(ENOSYS);
      }
      if !Writes(fl) && (fl.creat || fl.trunc) {
        return Failed(EINVAL);
      }
      var i := FindFile(name);
      if i == |files| {
        return Failed(ENOENT);
      }
      if Writes(fl) && files[i].access == ReadOnly {
        return Failed(EACCES);
      }
      if fl.trunc {
        SeenUpdate(files, i, files[i].(sz := 0));
        files := files[i := files[i].(sz := 0)];
      }
      r := Opened(i);
    }

    method SysOpen(path: Option<seq<byte>>, flags: Flags, modeOk: bool) returns (a: Answer)
      requires Valid() && CallOk(OpenFile(path, flags, modeOk))
      modifies fds, this`files
      ensures Valid() && (V(), a) == Step(old(V()), OpenFile(path, flags, modeOk))
    {
      hide PlainOpen, SeenAll, StoredOk, Free;
      if path.None? {
        return Error(EFAULT);
      }
      if flags.creat && !modeOk {
        return Error(ENOSYS);
      }
      var n := 0;
      while n < FDS && !fds[n].Closed?
        invariant n <= FDS && files == old(files) && fds[..] == old(fds[..])
        invariant forall j :: 0 <= j < n ==> !fds[j].Closed?
      {
        n := n + 1;
      }
      FreeIs(fds[..], n);
      if n == FDS {
        return Error(ENFILE);
      }
      var r := FsOpen(path.value, flags);
      match r {
        case Failed(e) =>
          fds[n] := Closed;
          assert fds[..] == old(fds[..]);
          a := Error(e);
        case Opened(i) =>
          fds[n] := Open(i, 0);
          a := Done(n);
      }
    }

    method SysClose(fd: nat) returns (a: Answer)
      requires Valid() && CallOk(Close(fd))
      modifies fds
      ensures Valid() && (V(), a) == Step(old(V()), Close(fd))
    {
      if fd >= FDS || fds[fd].Closed? {
        return Error(EBADF);
      }
      fds[fd] := Closed;
      a := Done(0);
    }

    method RunCall(c: Call) returns (a: Answer)
      requires Valid() && CallOk(c)
      modifies fds, this`files
      ensures Valid() && (V(), a) == Step(old(V()), c)
    {
      hide Step, Files.Valid, Files.V, ViewOk;
      match c {
        case Read(fd, count, ok) => a := SysRead(fd, count, ok);
        case Write(fd, buf, ok) => a := SysWrite(fd, buf, ok);
        case Seek(fd, high, low, whence, ok) => a := SysLlseek(fd, high, low, whence, ok);
        case OpenFile(path, flags, modeOk) => a := SysOpen(path, flags, modeOk);
        case Close(fd) => a := SysClose(fd);
      }
    }

    /** Any sequence of calls gives the answers that plain sequences of bytes would. */
    method RunCalls(calls: seq<Call>) returns (answers: seq<Answer>)
      requires Valid() && forall i :: 0 <= i < |calls| ==> CallOk(calls[i])
      modifies fds, this`files
      ensures Valid() && (V(), answers) == Run(old(V()), calls)
    {
      hide Step, Files.Valid, ViewOk, SeenAll, SameShape;
      ghost var v := V();
      answers := [];
      assert calls[0..] == calls && forall u: seq<Answer> :: [] + u == u;
      for i := 0 to |calls|
        invariant Valid() && ViewOk(V()) && AllOk(calls[i..])
        invariant Run(v, calls) == (Run(V(), calls[i..]).0, answers + Run(V(), calls[i..]).1)
      {
        ghost var w, rest := V(), calls[i..];
        assert rest[0] == calls[i] && rest[1..] == calls[i + 1..];
        var a := RunCall(calls[i]);
        assert answers + ([a] + Run(V(), rest[1..]).1) == answers + [a] + Run(V(), rest[1..]).1;
        answers := answers + [a];
      }
      assert calls[|calls|..] == [] && answers + [] == answers;
    }

    /** save_sys_fs. */
    method Save()
      requires Valid()
      modifies fdsBak
      ensures Valid() && V() == old(V()) && fdsBak[..] == fds[..]
    {
      for i := 0 to FDS
        invariant forall j :: 0 <= j < i ==> fdsBak[j] == fds[j]
      {
        fdsBak[i] := fds[i];
      }
    }

    /** restore_sys_fs: the descriptors come back, the files stay as they are. */
    method Restore()
      requires Valid() && forall i :: 0 <= i < FDS && fdsBak[i].Open? ==>
        fdsBak[i].file < |files| && fdsBak[i].offset < U32
      modifies fds
      ensures Valid() && V() == View(old(V().files), fdsBak[..])
    {
      for i := 0 to FDS
        invariant forall j :: 0 <= j < i ==> fds[j] == fdsBak[j]
      {
        fds[i] := fdsBak[i];
      }
    }
  }

  /** The rights of a file matter to open alone: every other call does the same without them. */
  ghost predicate SameButRights(v: View, w: View) {
    && v.fds == w.fds && |v.files| == |w.files|
    && forall i :: 0 <= i < |v.files| ==> w.files[i] == v.files[i].(access := w.files[i].access)
  }

  lemma RightsUnused(v: View, w: View, c: Call)
    requires ViewOk(v) && ViewOk(w) && CallOk(c) && SameButRights(v, w) && !c.OpenFile?
    ensures Step(v, c).1 == Step(w, c).1 && SameButRights(Step(v, c).0, Step(w, c).0)
  {
    hide PlainWrite, PlainRead, PlainCount;
  }
}
